/**
 The JSONL event log: one canonical record per line, decoded strictly. Appending extends
 the decoded stream, and every cut of a log is corrupt or decodes to a prefix of it.
 */
module EventLogs {
  import opened Wrappers
  import opened Text
  import opened Json
  import opened JsonParser
  import opened CanonicalForm
  import opened EventStreams

  // ---- Lines --------------------------------------------------------------------------

  datatype Line = Line(text: JsString)

  // `text.split("\n")`.
  function Split(s: JsString): (lines: seq<Line>)
    ensures |lines| >= 1
  {
    if s == [] then [Line([])]
    else
      var front, last := Split(s[..|s| - 1]), s[|s| - 1];
      if last == NEWLINE then front + [Line([])]
      else front[..|front| - 1] + [Line(front[|front| - 1].text + [last])]
  }

  lemma {:induction false} SplitStep(s: JsString, u: CodeUnit)
    ensures Split(s + [u]) == if u == NEWLINE then Split(s) + [Line([])]
                              else Split(s)[..|Split(s)| - 1] + [Line(Split(s)[|Split(s)| - 1].text + [u])]
  {
    assert (s + [u])[..|s|] == s;
  }

  lemma {:induction false} NothingSplits()
    ensures Split([]) == [Line([])]
  {}

  lemma {:induction false} SplitExtend(a: seq<Line>, b: seq<Line>, u: CodeUnit)
    requires |b| >= 1
    ensures var s := a + b;
            s[..|s| - 1] + [Line(s[|s| - 1].text + [u])] == a + (b[..|b| - 1] + [Line(b[|b| - 1].text + [u])])
  {}

  // A newline splits on its own.
  lemma {:induction false} SplitConcat(a: JsString, b: JsString)
    ensures Split(a + [NEWLINE] + b) == Split(a) + Split(b)
  {
    hide Split;
    if b == [] {
      NothingSplits();
      SplitStep(a, NEWLINE);
      assert a + [NEWLINE] + b == a + [NEWLINE];
    } else {
      var front, last := b[..|b| - 1], b[|b| - 1];
      SplitConcat(a, front);
      SplitStep(a + [NEWLINE] + front, last);
      SplitStep(front, last);
      assert a + [NEWLINE] + b == a + [NEWLINE] + front + [last];
      assert b == front + [last];
      SplitExtend(Split(a), Split(front), last);
    }
  }

  lemma {:induction false} SplitOneLine(s: JsString)
    requires NEWLINE !in s
    ensures Split(s) == [Line(s)]
  {
    if s == [] {
    } else {
      var front, last := s[..|s| - 1], s[|s| - 1];
      assert s == front + [last];
      SplitOneLine(front);
    }
  }

  // ---- Decoding --------------------------------------------------------------------------

  // File contents; bytes that are not UTF-8 have no text.
  datatype Contents = Undecodable | Decoded(text: JsString)

  // One record, or None where `#load` reports corruption.
  function LoadLine(env: Envelope, runId: JsString, index: nat, line: Line): Option<Json> {
    if line.text == [] then None
    else
      var value := Parse(line.text);
      if value.Some? && EventFits(env, runId, index, value.value) then value else None
  }

  function LoadLines(env: Envelope, runId: JsString, lines: seq<Line>): Option<seq<Json>> {
    if lines == [] then Some([])
    else
      var last := |lines| - 1;
      var front := LoadLines(env, runId, lines[..last]);
      var event := LoadLine(env, runId, last, lines[last]);
      if front.Some? && event.Some? then Some(front.value + [event.value]) else None
  }

  function LoadText(env: Envelope, runId: JsString, text: JsString): Option<seq<Json>> {
    if text == [] || text[|text| - 1] != NEWLINE then None
    else LoadLines(env, runId, Split(text[..|text| - 1]))
  }

  // The stream in a file; a missing file is the empty stream, an empty one is corrupt.
  function LoadFile(env: Envelope, runId: JsString, file: Option<Contents>): Option<seq<Json>> {
    match file
    case None => Some([])
    case Some(Undecodable) => None
    case Some(Decoded(text)) => LoadText(env, runId, text)
  }

  lemma {:induction false} LoadedIsStream(env: Envelope, runId: JsString, lines: seq<Line>)
    ensures var loaded := LoadLines(env, runId, lines);
            loaded.Some? ==> |loaded.value| == |lines| && IsStream(env, runId, loaded.value)
  {
    if lines == [] {
    } else {
      var last := |lines| - 1;
      LoadedIsStream(env, runId, lines[..last]);
      var loaded := LoadLines(env, runId, lines);
      if loaded.Some? {
        var front := LoadLines(env, runId, lines[..last]).value;
        assert Continue(env, runId, |front|, [loaded.value[last]]);
        ContinueAppend(env, runId, front, [loaded.value[last]]);
      }
    }
  }

  lemma {:induction false} FileIsStream(env: Envelope, runId: JsString, file: Option<Contents>)
    ensures LoadFile(env, runId, file).Some? ==> IsStream(env, runId, LoadFile(env, runId, file).value)
  {
    hide LoadLines, Split, IsStream;
    EmptyStream(env, runId);
    if file.Some? && file.value.Decoded? {
      var text := file.value.text;
      if text != [] {
        LoadedIsStream(env, runId, Split(text[..|text| - 1]));
      }
    }
  }

  lemma {:induction false} LoadPrefix(env: Envelope, runId: JsString, lines: seq<Line>, j: nat)
    requires LoadLines(env, runId, lines).Some? && j <= |lines|
    ensures var all := LoadLines(env, runId, lines).value;
            |all| == |lines| && LoadLines(env, runId, lines[..j]) == Some(all[..j])
    decreases |lines|
  {
    hide LoadLine, IsStream;
    LoadedIsStream(env, runId, lines);
    if j < |lines| {
      LoadPrefix(env, runId, lines[..|lines| - 1], j);
      assert lines[..|lines| - 1][..j] == lines[..j];
      var all, front := LoadLines(env, runId, lines).value, LoadLines(env, runId, lines[..|lines| - 1]).value;
      assert all[..j] == front[..j];
    } else {
      var all := LoadLines(env, runId, lines).value;
      assert lines[..j] == lines && all[..j] == all;
    }
  }

  // ---- Torn logs ------------------------------------------------------------------------------

  // A cut of a decodable log is decodable exactly when it is not empty and ends a line; it
  // then decodes to a prefix of the stream: no event is altered or invented.
  lemma {:induction false} TornLog(env: Envelope, runId: JsString, text: JsString, k: nat)
    requires LoadText(env, runId, text).Some? && k <= |text|
    ensures LoadText(env, runId, text[..k]).Some? <==> k > 0 && text[k - 1] == NEWLINE
    ensures LoadText(env, runId, text[..k]).Some? ==>
              LoadText(env, runId, text[..k]).value <= LoadText(env, runId, text).value
  {
    hide LoadLines, Split;
    if k == |text| {
      assert text[..k] == text;
    } else if k > 0 && text[k - 1] == NEWLINE {
      var head, tail := text[..k - 1], text[k..|text| - 1];
      assert text[..|text| - 1] == head + [NEWLINE] + tail;
      SplitConcat(head, tail);
      LoadPrefix(env, runId, Split(head) + Split(tail), |Split(head)|);
      assert (Split(head) + Split(tail))[..|Split(head)|] == Split(head);
      assert text[..k][..k - 1] == head;
    }
  }

  // ---- Appending ------------------------------------------------------------------------------

  function LogText(events: seq<Json>): JsString {
    if events == [] then []
    else LogText(events[..|events| - 1]) + Serialize(events[|events| - 1]) + [NEWLINE]
  }

  // A file that is absent or holds a log.
  function LoadLog(env: Envelope, runId: JsString, text: JsString): Option<seq<Json>> {
    if text == [] then Some([]) else LoadText(env, runId, text)
  }

  lemma {:induction false} RecordLine(e: Json)
    ensures NEWLINE !in Serialize(e) && Serialize(e) != []
  {
    SerializePrintable(e);
    assert forall i | 0 <= i < |Serialize(e)| :: Serialize(e)[i] != NEWLINE;
  }

  lemma {:induction false} RecordLoads(env: Envelope, runId: JsString, index: nat, e: Json)
    requires GoodEnvelope(env) && EventFits(env, runId, index, e)
    ensures LoadLine(env, runId, index, Line(Serialize(e))) == Some(Canon(e))
  {
    RecordLine(e);
    CanonicalRoundTrip(e);
    CanonEvent(e);
  }

  lemma {:induction false} LoadAppend(env: Envelope, runId: JsString, lines: seq<Line>, line: Line)
    requires LoadLines(env, runId, lines).Some?
    ensures LoadLines(env, runId, lines + [line]) ==
            match LoadLine(env, runId, |lines|, line)
            case None => None
            case Some(e) => Some(LoadLines(env, runId, lines).value + [e])
  {
    assert (lines + [line])[..|lines|] == lines;
  }

  lemma {:induction false} NoLines(env: Envelope, runId: JsString)
    ensures LoadLines(env, runId, []) == Some([])
  {}

  // Writing one more record adds its event.
  lemma {:induction false} AppendOne(env: Envelope, runId: JsString, text: JsString, e: Json)
    requires GoodEnvelope(env) && LoadLog(env, runId, text).Some?
    requires EventFits(env, runId, |LoadLog(env, runId, text).value|, e)
    ensures LoadText(env, runId, text + Serialize(e) + [NEWLINE]) == Some(LoadLog(env, runId, text).value + [Canon(e)])
  {
    hide LoadLines, Split, LoadLine, EventFits, Serialize;
    var stream, record := LoadLog(env, runId, text).value, Serialize(e);
    var all := text + record + [NEWLINE];
    assert all[..|all| - 1] == text + record;
    RecordLine(e);
    SplitOneLine(record);
    RecordLoads(env, runId, |stream|, e);
    if text == [] {
      assert text + record == record;
      NoLines(env, runId);
      LoadAppend(env, runId, [], Line(record));
      assert [] + [Line(record)] == [Line(record)];
    } else {
      var body := text[..|text| - 1];
      assert text == body + [NEWLINE];
      assert text + record == body + [NEWLINE] + record;
      SplitConcat(body, record);
      LoadedIsStream(env, runId, Split(body));
      LoadAppend(env, runId, Split(body), Line(record));
    }
  }

  // Appending a batch to a log adds exactly its events.
  lemma {:induction false} AppendBatch(env: Envelope, runId: JsString, text: JsString, events: seq<Json>)
    requires GoodEnvelope(env) && LoadLog(env, runId, text).Some?
    requires Continue(env, runId, |LoadLog(env, runId, text).value|, events)
    ensures LoadLog(env, runId, text + LogText(events)) == Some(LoadLog(env, runId, text).value + CanonAll(events))
  {
    hide LoadText, Continue, EventFits, Serialize, Canon, CanonAll, GoodEnvelope;
    if events == [] {
      assert text + LogText(events) == text;
      assert LoadLog(env, runId, text).value + CanonAll(events) == LoadLog(env, runId, text).value;
    } else {
      var front, last := events[..|events| - 1], events[|events| - 1];
      ContinueLast(env, runId, |LoadLog(env, runId, text).value|, events);
      AppendBatch(env, runId, text, front);
      var before := text + LogText(front);
      AppendOne(env, runId, before, last);
      assert text + LogText(events) == before + Serialize(last) + [NEWLINE];
      assert text + LogText(events) != [];
      var stream := LoadLog(env, runId, text).value;
      assert CanonAll(events) == CanonAll(front) + [Canon(last)];
      assert stream + CanonAll(events) == stream + CanonAll(front) + [Canon(last)];
    }
  }

  lemma {:induction false} LogTextNonempty(events: seq<Json>)
    ensures events != [] ==> LogText(events) != []
  {}

  // A crash while appending leaves some cut of the written bytes: the log is then corrupt, or
  // holds the whole old stream and the first few of the new events.
  lemma {:induction false} TornAppend(env: Envelope, runId: JsString, text: JsString, events: seq<Json>, k: nat)
    requires GoodEnvelope(env) && LoadLog(env, runId, text).Some?
    requires Continue(env, runId, |LoadLog(env, runId, text).value|, events) && events != []
    requires |text| <= k <= |text + LogText(events)|
    ensures var before := LoadLog(env, runId, text).value;
            match LoadText(env, runId, (text + LogText(events))[..k])
            case None => k == 0 || (text + LogText(events))[k - 1] != NEWLINE
            case Some(after) => before <= after <= before + CanonAll(events)
  {
    hide LoadText, Continue, Serialize, CanonAll, GoodEnvelope;
    var whole := text + LogText(events);
    AppendBatch(env, runId, text, events);
    LogTextNonempty(events);
    TornLog(env, runId, whole, k);
    if text != [] {
      assert whole[..k][..|text|] == text;
      if LoadText(env, runId, whole[..k]).Some? {
        TornLog(env, runId, whole[..k], |text|);
      }
    }
  }
}
