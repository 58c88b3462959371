/**
 The file checkpoint store of one run: saving by a temporary file and a rename, as steps
 between which a crash may fall; loading and listing.
 */
module CheckpointStore {
  import opened Wrappers
  import opened Sequences
  import opened Text
  import opened Json
  import opened CanonicalForm
  import opened EventStreams
  import opened EventLogs
  import opened Checkpoints

  // A record's file is named by the digest of its checkpoint id and ends in
  // ".checkpoint.json"; a temporary file by a token no other save uses, ending in ".tmp".
  datatype Name = Record(source: Key) | Temporary(token: nat)

  type Directory = map<Name, Contents>

  function RecordName(digest: Digest, id: JsString): Name {
    Record(Key(digest(id)))
  }

  // Different safe identifiers have different digests.
  ghost predicate CollisionFree(digest: Digest) {
    forall a, b | SafeIdentifier(a) && SafeIdentifier(b) && digest(a) == digest(b) :: a == b
  }

  // ---- Saving, step by step ------------------------------------------------------------

  datatype Phase =
    | Idle
    | Writing(written: nat)  // the temporary file holds this much of the record
    | Renamed
    | Synced
    | Abandoned              // a failed save after its cleanup

  datatype Step = Create | Write(upTo: nat) | Rename | Sync | Abandon

  datatype Saving = Saving(files: Directory, phase: Phase)

  predicate Enabled(text: JsString, s: Saving, step: Step) {
    match step
    case Create => s.phase.Idle?
    case Write(k) => s.phase.Writing? && s.phase.written < k <= |text|
    case Rename => s.phase == Writing(|text|)
    case Sync => s.phase.Renamed?
    case Abandon => s.phase.Writing?
  }

  function ContentsAt(files: Directory, name: Name): Contents {
    if name in files then files[name] else Undecodable
  }

  function Next(text: JsString, record: Name, temporary: Name, s: Saving, step: Step): Saving
    requires Enabled(text, s, step)
  {
    match step
    case Create => Saving(s.files[temporary := Decoded([])], Writing(0))
    case Write(k) => Saving(s.files[temporary := Decoded(text[..k])], Writing(k))
    case Rename => Saving((s.files - {temporary})[record := ContentsAt(s.files, temporary)], Renamed)
    case Sync => s.(phase := Synced)
    case Abandon => Saving(s.files - {temporary}, Abandoned)
  }

  ghost predicate Legal(text: JsString, record: Name, temporary: Name, s: Saving, steps: seq<Step>)
    decreases |steps|
  {
    steps != [] ==>
      Enabled(text, s, steps[0])
      && Legal(text, record, temporary, Next(text, record, temporary, s, steps[0]), steps[1..])
  }

  ghost function Exec(text: JsString, record: Name, temporary: Name, s: Saving, steps: seq<Step>): Saving
    requires Legal(text, record, temporary, s, steps)
    decreases |steps|
  {
    if steps == [] then s
    else Exec(text, record, temporary, Next(text, record, temporary, s, steps[0]), steps[1..])
  }

  // The directory while a save that found `before` is under way.
  ghost predicate SavingOk(text: JsString, record: Name, temporary: Name, before: Directory, s: Saving) {
    match s.phase
    case Idle => s.files == before
    case Writing(k) => k <= |text| && s.files == before[temporary := Decoded(text[..k])]
    case Renamed => s.files == before[record := Decoded(text)]
    case Synced => s.files == before[record := Decoded(text)]
    case Abandoned => s.files == before
  }

  lemma {:induction false} StepOk(text: JsString, record: Name, temporary: Name, before: Directory, s: Saving,
      step: Step)
    requires record != temporary && temporary !in before
    requires SavingOk(text, record, temporary, before, s) && Enabled(text, s, step)
    ensures SavingOk(text, record, temporary, before, Next(text, record, temporary, s, step))
  {
    assert text[..|text|] == text;
    assert before[temporary := ContentsAt(s.files, temporary)] - {temporary} == before;
  }

  // ---- A save that meets no failure -----------------------------------------------------------

  // One more step in front of a legal sequence.
  lemma {:induction false} StepFirst(text: JsString, record: Name, temporary: Name, s: Saving, step: Step,
      rest: seq<Step>)
    requires Enabled(text, s, step) && Legal(text, record, temporary, Next(text, record, temporary, s, step), rest)
    ensures Legal(text, record, temporary, s, [step] + rest)
    ensures Exec(text, record, temporary, s, [step] + rest)
         == Exec(text, record, temporary, Next(text, record, temporary, s, step), rest)
  {
    hide Enabled, Next;
    assert ([step] + rest)[0] == step && ([step] + rest)[1..] == rest;
  }

  ghost function SaveSteps(text: JsString): seq<Step> {
    [Create] + ((if text == [] then [] else [Write(|text|)]) + ([Rename] + ([Sync] + [])))
  }

  lemma {:induction false} SaveRuns(text: JsString, record: Name, temporary: Name, files: Directory)
    requires record.Record? && temporary.Temporary? && temporary !in files
    ensures Legal(text, record, temporary, Saving(files, Idle), SaveSteps(text))
    ensures Exec(text, record, temporary, Saving(files, Idle), SaveSteps(text))
         == Saving(files[record := Decoded(text)], Synced)
  {
    var written := Saving(files[temporary := Decoded(text)], Writing(|text|));
    var renamed := Saving(files[record := Decoded(text)], Renamed);
    assert files[temporary := Decoded(text)] - {temporary} == files;
    assert text[..|text|] == text;
    StepFirst(text, record, temporary, renamed, Sync, []);
    StepFirst(text, record, temporary, written, Rename, [Sync] + []);
    var created := Saving(files[temporary := Decoded([])], Writing(0));
    var rest := [Rename] + ([Sync] + []);
    if text == [] {
      assert [] + rest == rest;
    } else {
      assert Next(text, record, temporary, created, Write(|text|)) == written by {
        assert files[temporary := Decoded([])][temporary := Decoded(text)] == files[temporary := Decoded(text)];
      }
      StepFirst(text, record, temporary, created, Write(|text|), rest);
    }
    StepFirst(text, record, temporary, Saving(files, Idle), Create,
              (if text == [] then [] else [Write(|text|)]) + rest);
  }

  // Create, write, rename and synchronize: a run of the steps above that reaches the end.
  method WriteRecord(files: Directory, record: Name, temporary: Name, text: JsString)
    returns (after: Directory, ghost steps: seq<Step>)
    requires record.Record? && temporary.Temporary? && temporary !in files
    ensures Legal(text, record, temporary, Saving(files, Idle), steps)
    ensures Exec(text, record, temporary, Saving(files, Idle), steps) == Saving(after, Synced)
    ensures after == files[record := Decoded(text)]
  {
    hide Enabled, Legal, Exec;
    after := files[temporary := Decoded([])];
    after := after[temporary := Decoded(text)];
    after := (after - {temporary})[record := after[temporary]];
    steps := SaveSteps(text);
    SaveRuns(text, record, temporary, files);
    assert files[temporary := Decoded(text)] - {temporary} == files;
  }

  // ---- Crashes -----------------------------------------------------------------------------

  function RecordsOf(files: Directory): map<Name, Contents> {
    map n | n in files && n.Record? :: files[n]
  }

  lemma {:induction false} SavedRecords(text: JsString, record: Name, temporary: Name, before: Directory, s: Saving)
    requires record.Record? && temporary.Temporary? && temporary !in before
    requires SavingOk(text, record, temporary, before, s)
    ensures RecordsOf(s.files) == if s.phase.Renamed? || s.phase.Synced? then RecordsOf(before)[record := Decoded(text)]
                                  else RecordsOf(before)
  {}

  // Wherever a save stops - crash, failure or completion - the records are all as before, or
  // all as before but for the complete new record; and the latter exactly after the rename.
  lemma {:induction false} CrashAtomic(text: JsString, record: Name, temporary: Name, before: Directory, s: Saving,
      steps: seq<Step>)
    requires record.Record? && temporary.Temporary? && temporary !in before
    requires SavingOk(text, record, temporary, before, s) && Legal(text, record, temporary, s, steps)
    ensures var after := Exec(text, record, temporary, s, steps);
            && SavingOk(text, record, temporary, before, after)
            && RecordsOf(after.files) ==
               if after.phase.Renamed? || after.phase.Synced? then RecordsOf(before)[record := Decoded(text)]
               else RecordsOf(before)
    decreases |steps|
  {
    hide Next, Enabled, RecordsOf;
    if steps != [] {
      StepOk(text, record, temporary, before, s, steps[0]);
      CrashAtomic(text, record, temporary, before, Next(text, record, temporary, s, steps[0]), steps[1..]);
    } else {
      SavedRecords(text, record, temporary, before, s);
    }
  }

  // ---- What a directory holds -----------------------------------------------------------------

  // The records are complete, and are those of the saved checkpoints of the run.
  ghost predicate Holds(digest: Digest, calendar: Calendar, run: JsString, files: Directory,
      saved: map<Key, Checkpoint>) {
    && (forall id | id in saved ::
          saved[id].id == id.text && saved[id].runId == run && Storable(calendar, saved[id])
          && RecordName(digest, id.text) in files
          && files[RecordName(digest, id.text)] == Decoded(Encode(digest, saved[id])))
    && (forall name | name in files && name.Record? :: exists id :: id in saved && RecordName(digest, id.text) == name)
  }

  lemma {:induction false} HoldsByRecords(digest: Digest, calendar: Calendar, run: JsString, a: Directory, b: Directory,
      saved: map<Key, Checkpoint>)
    requires Holds(digest, calendar, run, a, saved) && RecordsOf(a) == RecordsOf(b)
    ensures Holds(digest, calendar, run, b, saved)
  {
    hide Storable, Encode;
    forall n: Name | n.Record? ensures n in a <==> n in b {
      assert n in RecordsOf(a) <==> n in RecordsOf(b);
    }
    forall n: Name | n.Record? && n in a ensures a[n] == b[n] {
      assert RecordsOf(a)[n] == RecordsOf(b)[n];
    }
  }

  lemma {:induction false} HoldsOneMore(digest: Digest, calendar: Calendar, run: JsString, files: Directory,
      saved: map<Key, Checkpoint>, c: Checkpoint)
    requires Holds(digest, calendar, run, files, saved) && CollisionFree(digest) && Storable(calendar, c)
        && c.runId == run
    ensures Holds(digest, calendar, run, files[RecordName(digest, c.id) := Decoded(Encode(digest, c))],
        saved[Key(c.id) := c])
  {
    hide Encode, Captured, SafeIdentifier;
    var after, more := files[RecordName(digest, c.id) := Decoded(Encode(digest, c))], saved[Key(c.id) := c];
    forall name | name in after && name.Record? ensures exists id :: id in more && RecordName(digest, id.text) == name {
      if name == RecordName(digest, c.id) {
        assert Key(c.id) in more;
      } else {
        var id :| id in saved && RecordName(digest, id.text) == name;
        assert id in more;
      }
    }
  }

  lemma {:induction false} RecordsUpdate(files: Directory, record: Name, c: Contents)
    requires record.Record?
    ensures RecordsOf(files[record := c]) == RecordsOf(files)[record := c]
  {}

  // A save that stops anywhere leaves the old checkpoints, or the old ones and the new one.
  lemma {:induction false} SaveIsOldOrNew(digest: Digest, calendar: Calendar, run: JsString, before: Directory,
      saved: map<Key, Checkpoint>,
                       c: Checkpoint, token: nat, steps: seq<Step>)
    requires Holds(digest, calendar, run, before, saved) && CollisionFree(digest) && Storable(calendar, c)
        && c.runId == run
    requires Temporary(token) !in before
    requires Legal(Encode(digest, c), RecordName(digest, c.id), Temporary(token), Saving(before, Idle), steps)
    ensures var after := Exec(Encode(digest, c), RecordName(digest, c.id), Temporary(token), Saving(before, Idle),
        steps);
            Holds(digest, calendar, run, after.files,
                  if after.phase.Renamed? || after.phase.Synced? then saved[Key(c.id) := c] else saved)
  {
    hide Encode, Storable, RecordsOf, Holds, Exec, Legal;
    var text, record := Encode(digest, c), RecordName(digest, c.id);
    CrashAtomic(text, record, Temporary(token), before, Saving(before, Idle), steps);
    var after := Exec(text, record, Temporary(token), Saving(before, Idle), steps);
    HoldsOneMore(digest, calendar, run, before, saved, c);
    RecordsUpdate(before, record, Decoded(text));
    HoldsByRecords(digest, calendar, run,
      if after.phase.Renamed? || after.phase.Synced? then before[record := Decoded(text)] else before,
      after.files, if after.phase.Renamed? || after.phase.Synced? then saved[Key(c.id) := c] else saved);
  }

  // ---- Loading and listing -----------------------------------------------------------------------

  datatype Loaded = Missing | Corrupt | Found(checkpoint: Checkpoint)

  function LoadName(digest: Digest, calendar: Calendar, run: JsString, files: Directory, expected: Option<JsString>,
      name: Name): Loaded {
    if name !in files then Missing
    else if files[name].Undecodable? || name.Temporary? then Corrupt
    else
      match ParseRecord(digest, calendar, files[name].text, run, expected, name.source.text)
      case None => Corrupt
      case Some(c) => Found(c)
  }

  lemma {:induction false} RecordPresent(digest: Digest, calendar: Calendar, run: JsString, files: Directory,
      saved: map<Key, Checkpoint>, id: JsString)
    requires Holds(digest, calendar, run, files, saved) && CollisionFree(digest) && SafeIdentifier(id)
    ensures RecordName(digest, id) in files <==> Key(id) in saved
  {
    hide Encode, SafeIdentifier, Captured;
    if RecordName(digest, id) in files {
      var other :| other in saved && RecordName(digest, other.text) == RecordName(digest, id);
      assert other.text == id;
    }
  }

  // Loading an id finds the checkpoint last saved under it, if any, and never anything else.
  lemma {:induction false} LoadMeans(digest: Digest, calendar: Calendar, run: JsString, files: Directory,
      saved: map<Key, Checkpoint>, id: JsString)
    requires Holds(digest, calendar, run, files, saved) && CollisionFree(digest) && SafeIdentifier(id)
    ensures LoadName(digest, calendar, run, files, Some(id), RecordName(digest, id)) ==
            if Key(id) in saved then Found(saved[Key(id)]) else Missing
  {
    hide Encode, SafeIdentifier, ParseRecord, Captured;
    RecordPresent(digest, calendar, run, files, saved, id);
    if Key(id) in saved {
      RecordRoundTrip(digest, calendar, saved[Key(id)], Some(id));
    }
  }

  lemma {:induction false} ListedMeans(digest: Digest, calendar: Calendar, run: JsString, files: Directory,
      saved: map<Key, Checkpoint>, name: Name)
    requires Holds(digest, calendar, run, files, saved) && name in files && name.Record?
    ensures exists id :: id in saved && RecordName(digest, id.text) == name
                      && LoadName(digest, calendar, run, files, None, name) == Found(saved[id])
  {
    hide Encode, ParseRecord, Storable;
    var id :| id in saved && RecordName(digest, id.text) == name;
    RecordRoundTrip(digest, calendar, saved[id], None);
  }

  // By sequence, then by id.
  predicate CheckpointLeq(a: Checkpoint, b: Checkpoint) {
    a.sequence < b.sequence || (a.sequence == b.sequence && TextLeq(a.id, b.id))
  }

  predicate Before(a: Checkpoint, b: Checkpoint) {
    a.sequence < b.sequence || (a.sequence == b.sequence && Compare(a.id, b.id) < 0)
  }

  predicate NameLeq(a: Name, b: Name) {
    a.Record? && b.Record? && KeyLeq(a.source, b.source)
  }

  function KeepRecords(names: seq<Name>): (r: seq<Name>)
    ensures forall n :: n in r <==> n in names && n.Record?
  {
    if names == [] then []
    else
      var front, last := names[..|names| - 1], names[|names| - 1];
      assert names == front + [last];
      KeepRecords(front) + if last.Record? then [last] else []
  }

  lemma {:induction false} KeepRecordsNoDup(names: seq<Name>)
    requires NoDup(names)
    ensures NoDup(KeepRecords(names))
  {
    if names == [] {
    } else {
      var front, last := names[..|names| - 1], names[|names| - 1];
      assert names == front + [last];
      NoDupAppend(front, last);
      KeepRecordsNoDup(front);
      NoDupAppend(KeepRecords(front), last);
      assert KeepRecords(front) + [] == KeepRecords(front);
    }
  }

  // What listing must return: one checkpoint per saved id, strictly ordered.
  ghost predicate Lists(checkpoints: seq<Checkpoint>, saved: map<Key, Checkpoint>) {
    && |checkpoints| == |saved|
    && (forall c :: c in checkpoints <==> Key(c.id) in saved && saved[Key(c.id)] == c)
    && (forall i, j | 0 <= i < j < |checkpoints| :: Before(checkpoints[i], checkpoints[j]))
  }

  // The checkpoints found so far are those of the names read so far.
  ghost predicate Reads(digest: Digest, saved: map<Key, Checkpoint>, names: seq<Name>, found: seq<Checkpoint>) {
    && |found| == |names|
    && forall i | 0 <= i < |names| ::
         Key(found[i].id) in saved && saved[Key(found[i].id)] == found[i] && RecordName(digest, found[i].id) == names[i]
  }

  // Every record in the given order; None if one is corrupt.
  function ReadAll(digest: Digest, calendar: Calendar, run: JsString, files: Directory,
      names: seq<Name>): Option<seq<Checkpoint>> {
    if names == [] then Some([])
    else
      var front := ReadAll(digest, calendar, run, files, names[..|names| - 1]);
      if front.None? then None
      else
        match LoadName(digest, calendar, run, files, None, names[|names| - 1])
        case Missing => front
        case Corrupt => None
        case Found(c) => Some(front.value + [c])
  }

  // `list`, over the directory's entries: read the records in name order, then sort.
  function Listing(digest: Digest, calendar: Calendar, run: JsString, files: Directory,
      entries: seq<Name>): Option<seq<Checkpoint>> {
    var found := ReadAll(digest, calendar, run, files, Sort(KeepRecords(entries), NameLeq));
    if found.None? then None else Some(Sort(found.value, CheckpointLeq))
  }

  lemma {:induction false} HeldIds(digest: Digest, calendar: Calendar, run: JsString, files: Directory,
      saved: map<Key, Checkpoint>)
    requires Holds(digest, calendar, run, files, saved)
    ensures forall id | id in saved :: saved[id].id == id.text && SafeIdentifier(id.text)
    ensures forall id | id in saved :: RecordName(digest, id.text) in files
  {
    hide Encode, SafeIdentifier, Captured, Canon;
  }

  lemma {:induction false} AllFound(digest: Digest, calendar: Calendar, run: JsString, files: Directory,
                                    saved: map<Key, Checkpoint>, names: seq<Name>)
    requires Holds(digest, calendar, run, files, saved)
    requires forall n | n in names :: n in files && n.Record?
    ensures var found := ReadAll(digest, calendar, run, files, names);
      found.Some? && Reads(digest, saved, names, found.value)
  {
    hide Holds, LoadName;
    if names == [] {
    } else {
      var front, last := names[..|names| - 1], names[|names| - 1];
      assert names == front + [last];
      AllFound(digest, calendar, run, files, saved, front);
      ListedMeans(digest, calendar, run, files, saved, last);
      HeldIds(digest, calendar, run, files, saved);
    }
  }

  lemma {:induction false} NamesListed(entries: seq<Name>)
    requires NoDup(entries)
    ensures var names := Sort(KeepRecords(entries), NameLeq);
            NoDup(names) && forall n :: n in names <==> n in entries && n.Record?
  {
    KeepRecordsNoDup(entries);
    SortMembers(KeepRecords(entries), NameLeq);
    PermutationNoDup(KeepRecords(entries), Sort(KeepRecords(entries), NameLeq));
  }

  lemma {:induction false} SameDigest(digest: Digest, a: JsString, b: JsString)
    requires CollisionFree(digest) && SafeIdentifier(a) && SafeIdentifier(b)
        && RecordName(digest, a) == RecordName(digest, b)
    ensures a == b
  {}

  lemma {:induction false} FoundDistinct(digest: Digest, saved: map<Key, Checkpoint>, names: seq<Name>,
      found: seq<Checkpoint>)
    requires NoDup(names) && Reads(digest, saved, names, found)
    ensures NoDup(found) && forall i, j | 0 <= i < |found| && 0 <= j < |found| && found[i].id == found[j].id :: i == j
  {
    forall i, j | 0 <= i < |found| && 0 <= j < |found| && found[i].id == found[j].id ensures i == j {
      assert names[i] == names[j];
    }
  }

  function IdKeys(found: seq<Checkpoint>): (r: seq<Key>)
    ensures |r| == |found| && forall i | 0 <= i < |found| :: r[i] == Key(found[i].id)
  {
    seq(|found|, i requires 0 <= i < |found| => Key(found[i].id))
  }

  lemma {:induction false} FoundCount(found: seq<Checkpoint>, saved: map<Key, Checkpoint>)
    requires forall i, j | 0 <= i < |found| && 0 <= j < |found| && found[i].id == found[j].id :: i == j
    requires forall c :: c in found <==> Key(c.id) in saved && saved[Key(c.id)] == c
    requires forall id | id in saved :: saved[id].id == id.text
    ensures |found| == |saved|
  {
    var keys := IdKeys(found);
    NoDupCardinality(keys);
    forall id ensures id in Elems(keys) <==> id in saved {
      if id in saved {
        assert saved[id] in found;
        var i :| 0 <= i < |found| && found[i] == saved[id];
        assert keys[i] == id;
      }
      if id in Elems(keys) {
        var i :| 0 <= i < |keys| && keys[i] == id;
        assert found[i] in found;
      }
    }
    assert Elems(keys) == saved.Keys;
    assert |saved| == |saved.Keys|;
  }

  lemma {:induction false} CheckpointOrder(found: seq<Checkpoint>)
    requires forall i, j | 0 <= i < |found| && 0 <= j < |found| && found[i].id == found[j].id :: i == j
    ensures OrderOn(CheckpointLeq, found)
  {
    forall a, b | a in found && b in found ensures CheckpointLeq(a, b) || CheckpointLeq(b, a) {
      CompareIsTotalOrder(a.id, b.id, a.id);
    }
    forall a, b, c | a in found && b in found && c in found && CheckpointLeq(a, b) && CheckpointLeq(b, c)
        ensures CheckpointLeq(a, c) {
      CompareIsTotalOrder(a.id, b.id, c.id);
    }
    forall a, b | a in found && b in found && CheckpointLeq(a, b) && CheckpointLeq(b, a) ensures a == b {
      CompareIsTotalOrder(a.id, b.id, a.id);
      var i :| 0 <= i < |found| && found[i] == a;
      var j :| 0 <= j < |found| && found[j] == b;
    }
  }

  lemma {:induction false} ListSorted(found: seq<Checkpoint>, saved: map<Key, Checkpoint>)
    requires NoDup(found) && |found| == |saved|
    requires forall i, j | 0 <= i < |found| && 0 <= j < |found| && found[i].id == found[j].id :: i == j
    requires forall c :: c in found <==> Key(c.id) in saved && saved[Key(c.id)] == c
    ensures Lists(Sort(found, CheckpointLeq), saved)
  {
    var s := Sort(found, CheckpointLeq);
    CheckpointOrder(found);
    SortSorted(found, CheckpointLeq);
    SortMembers(found, CheckpointLeq);
    PermutationNoDup(found, s);
    forall i, j | 0 <= i < j < |s| ensures Before(s[i], s[j]) {
      CompareIsTotalOrder(s[i].id, s[j].id, s[i].id);
      assert s[i] in found && s[j] in found;
      assert CheckpointLeq(s[i], s[j]);
    }
  }

  lemma {:induction false} AllRead(digest: Digest, calendar: Calendar, run: JsString, files: Directory,
      saved: map<Key, Checkpoint>,
                entries: seq<Name>, names: seq<Name>, found: seq<Checkpoint>)
    requires Holds(digest, calendar, run, files, saved) && CollisionFree(digest) && Elems(entries) == files.Keys
    requires NoDup(names) && forall n :: n in names <==> n in entries && n.Record?
    requires Reads(digest, saved, names, found)
    ensures Lists(Sort(found, CheckpointLeq), saved)
  {
    hide Holds, SafeIdentifier;
    HeldIds(digest, calendar, run, files, saved);
    FoundDistinct(digest, saved, names, found);
    forall c ensures c in found <==> Key(c.id) in saved && saved[Key(c.id)] == c {
      if Key(c.id) in saved && saved[Key(c.id)] == c {
        var name := RecordName(digest, c.id);
        assert name in Elems(entries);
        assert name in names;
        var i :| 0 <= i < |names| && names[i] == name;
        SameDigest(digest, found[i].id, c.id);
        assert found[i] == c;
      }
    }
    FoundCount(found, saved);
    ListSorted(found, saved);
  }

  // Whatever order the directory is read in, and whatever temporary files it contains, the
  // listing has one entry per saved id, strictly ordered by sequence and then id.
  lemma {:induction false} ListMeans(digest: Digest, calendar: Calendar, run: JsString, files: Directory,
      entries: seq<Name>, saved: map<Key, Checkpoint>)
    requires Holds(digest, calendar, run, files, saved) && CollisionFree(digest)
    requires NoDup(entries) && Elems(entries) == files.Keys
    ensures var checkpoints := Listing(digest, calendar, run, files, entries);
            checkpoints.Some? && Lists(checkpoints.value, saved)
  {
    hide Holds, CollisionFree, Lists, LoadName, ReadAll, Reads;
    var names := Sort(KeepRecords(entries), NameLeq);
    NamesListed(entries);
    forall n | n in names ensures n in files && n.Record? {
      assert n in Elems(entries);
    }
    AllFound(digest, calendar, run, files, saved, names);
    AllRead(digest, calendar, run, files, saved, entries, names, ReadAll(digest, calendar, run, files, names).value);
  }

  // ---- The object -------------------------------------------------------------------------------

  datatype SaveError = InvalidInput | UnsafeIdentifier

  datatype Input = Input(runId: JsString, id: JsString, sequence: int, createdAt: Option<JsString>, state: Json)

  // `validateCheckpointInput`: the envelope first, then the identifiers.
  function InputError(calendar: Calendar, input: Input): Option<SaveError> {
    if !(0 <= input.sequence <= MAX_SAFE) || (input.createdAt.Some? && !calendar(input.createdAt.value))
        || !Captured(input.state)
    then Some(InvalidInput)
    else if !SafeIdentifier(input.runId) || !SafeIdentifier(input.id) then Some(SaveError.UnsafeIdentifier)
    else None
  }

  // What is stored for an input at the given time.
  function Stored(input: Input, now: JsString): Checkpoint {
    Checkpoint(input.runId, input.id, input.sequence, if input.createdAt.Some? then input.createdAt.value else now,
        Canon(input.state))
  }

  lemma {:induction false} InputStorable(calendar: Calendar, input: Input, now: JsString)
    requires InputError(calendar, input).None? && calendar(now)
    ensures Storable(calendar, Stored(input, now))
  {
    hide SafeIdentifier;
    CanonIdempotent(input.state);
    CanonCaptured(input.state);
  }

  function SavedOf(saved: map<Key, map<Key, Checkpoint>>, run: JsString): map<Key, Checkpoint> {
    if Key(run) in saved then saved[Key(run)] else map[]
  }

  lemma {:induction false} ReadStops(digest: Digest, calendar: Calendar, run: JsString, files: Directory,
      names: seq<Name>, index: nat)
    requires index < |names| && LoadName(digest, calendar, run, files, None, names[index]) == Corrupt
    ensures ReadAll(digest, calendar, run, files, names) == None
    decreases |names|
  {
    hide LoadName;
    if index >= |names| - 1 {
    } else {
      ReadStops(digest, calendar, run, files, names[..|names| - 1], index);
    }
  }

  class FileCheckpointStore {
    const digest: Digest
    const calendar: Calendar
    var directories: map<Key, Directory>

    constructor (digest: Digest, calendar: Calendar)
      ensures this.digest == digest && this.calendar == calendar && directories == map[]
    {
      this.digest, this.calendar, directories := digest, calendar, map[];
    }

    function DirectoryOf(run: JsString): Directory
      reads this
    {
      if Key(digest(run)) in directories then directories[Key(digest(run))] else map[]
    }

    // Each run's directory holds the checkpoints saved for it.
    ghost predicate Valid(saved: map<Key, map<Key, Checkpoint>>)
      reads this
    {
      CollisionFree(digest) && forall run | SafeIdentifier(run) ::
        Holds(digest, calendar, run, DirectoryOf(run), SavedOf(saved, run))
    }

    lemma {:induction false} OthersHeld(before: map<Key, Directory>, saved: map<Key, map<Key, Checkpoint>>,
        run: JsString, files: Directory, now: map<Key, Checkpoint>)
      requires CollisionFree(digest) && SafeIdentifier(run) && directories == before[Key(digest(run)) := files]
      requires forall other | SafeIdentifier(other) ::
        var found := if Key(digest(other)) in before then before[Key(digest(other))] else map[];
        Holds(digest, calendar, other, found, SavedOf(saved, other))
      requires Holds(digest, calendar, run, files, now)
      ensures Valid(saved[Key(run) := now])
    {
      hide Holds, SafeIdentifier;
      forall other | SafeIdentifier(other)
        ensures Holds(digest, calendar, other, DirectoryOf(other), SavedOf(saved[Key(run) := now], other))
      {
        if other != run {
          assert digest(other) != digest(run);
        }
      }
    }

    // Save a checkpoint; `token` names the temporary file, which no file has yet.
    method Save(input: Input, now: JsString, token: nat, ghost saved: map<Key, map<Key, Checkpoint>>)
      returns (r: Result<Checkpoint, SaveError>)
      requires calendar(now) && Temporary(token) !in DirectoryOf(input.runId)
      modifies this
      ensures r == match InputError(calendar, input) case Some(e) => Err(e) case None => Ok(Stored(input, now))
      ensures r.Err? ==> directories == old(directories)
      ensures r.Ok? ==>
        var record, contents := RecordName(digest, input.id), Decoded(Encode(digest, r.value));
        directories == old(directories)[Key(digest(input.runId)) := old(DirectoryOf(input.runId))[record := contents]]
      ensures r.Ok? && old(Valid(saved))
          ==> Valid(saved[Key(input.runId) := SavedOf(saved, input.runId)[Key(input.id) := r.value]])
    {
      hide Holds, Storable, Encode, SafeIdentifier, CollisionFree;
      var error := InputError(calendar, input);
      if error.Some? {
        return Err(error.value);
      }
      var checkpoint := Stored(input, now);
      InputStorable(calendar, input, now);
      var record, text := RecordName(digest, checkpoint.id), Encode(digest, checkpoint);
      ghost var before, valid := DirectoryOf(input.runId), Valid(saved);
      var files, steps := WriteRecord(DirectoryOf(input.runId), record, Temporary(token), text);
      directories := directories[Key(digest(input.runId)) := files];
      if valid {
        HoldsOneMore(digest, calendar, input.runId, before, SavedOf(saved, input.runId), checkpoint);
        OthersHeld(old(directories), saved, input.runId, files,
            SavedOf(saved, input.runId)[Key(input.id) := checkpoint]);
      }
      return Ok(checkpoint);
    }

    method Load(runId: JsString, id: JsString, ghost saved: map<Key, map<Key, Checkpoint>>)
        returns (r: Result<Loaded, SaveError>)
      ensures r == if SafeIdentifier(runId) && SafeIdentifier(id)
                   then Ok(LoadName(digest, calendar, runId, DirectoryOf(runId), Some(id), RecordName(digest, id)))
                   else Err(SaveError.UnsafeIdentifier)
      ensures r.Ok? && Valid(saved) ==>
                r.value == if Key(id) in SavedOf(saved, runId) then Found(SavedOf(saved, runId)[Key(id)]) else Missing
    {
      hide Holds, SafeIdentifier, CollisionFree, LoadName;
      if !SafeIdentifier(runId) || !SafeIdentifier(id) {
        return Err(SaveError.UnsafeIdentifier);
      }
      if Valid(saved) {
        LoadMeans(digest, calendar, runId, DirectoryOf(runId), SavedOf(saved, runId), id);
      }
      return Ok(LoadName(digest, calendar, runId, DirectoryOf(runId), Some(id), RecordName(digest, id)));
    }

    // `entries` is what reading the directory returned; None stands for a corrupt record.
    method List(runId: JsString, entries: seq<Name>, ghost saved: map<Key, map<Key, Checkpoint>>)
      returns (r: Result<Option<seq<Checkpoint>>, SaveError>)
      requires NoDup(entries) && Elems(entries) == DirectoryOf(runId).Keys
      ensures r == if SafeIdentifier(runId) then Ok(Listing(digest, calendar, runId, DirectoryOf(runId), entries))
                   else Err(SaveError.UnsafeIdentifier)
      ensures r.Ok? && Valid(saved) ==> r.value.Some? && Lists(r.value.value, SavedOf(saved, runId))
    {
      hide Holds, SafeIdentifier, CollisionFree, LoadName, Lists;
      if !SafeIdentifier(runId) {
        return Err(SaveError.UnsafeIdentifier);
      }
      if Valid(saved) {
        ListMeans(digest, calendar, runId, DirectoryOf(runId), entries, SavedOf(saved, runId));
      }
      var names := Sort(KeepRecords(entries), NameLeq);
      var found := [];
      for index := 0 to |names|
        invariant ReadAll(digest, calendar, runId, DirectoryOf(runId), names[..index]) == Some(found)
      {
        assert names[..index + 1][..index] == names[..index];
        var loaded := LoadName(digest, calendar, runId, DirectoryOf(runId), None, names[index]);
        match loaded {
          case Missing =>
          case Corrupt =>
            ReadStops(digest, calendar, runId, DirectoryOf(runId), names, index);
            return Ok(None);
          case Found(checkpoint) => found := found + [checkpoint];
        }
      }
      assert names[..|names|] == names;
      return Ok(Some(Sort(found, CheckpointLeq)));
    }
  }
}
