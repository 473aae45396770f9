/** Crashes: any run of the recorder, stopped between any two file renames, with writes that fail and late ones that
    still land, and resumed any number of times. What is restored is a prefix of what was appended; every acknowledged
    append is in it as long as no late write lands over a newer file. */
module RecorderCrash {
  import opened Options
  import opened Texts
  import opened Json
  import opened JsonLaws
  import opened CanonicalTheorems
  import opened Recorder
  import opened RecorderLaws

  // ---- the run ----

  /** A flush replaces its two files by two renames that may happen in either order. */
  datatype Flight =
    | Idle
    | InFlight(files: Files, transcriptDone: bool, replayDone: bool)
    | Stopped

  /** What callers were told has been recorded. */
  datatype Known = Known(entries: seq<Json>, queries: seq<Json>, failure: bool)

  const NOTHING: Known := Known([], [], false)

  /** The write that a failed flush left behind: its rename may still happen, at any later time. */
  datatype Write = Write(transcript: bool, text: Text, flush: nat)

  /** The flushes, by number, that wrote the two files on disk. */
  datatype Origin = Origin(transcript: nat, replay: nat)

  datatype World = World(memory: Memory, disk: Files, flight: Flight, known: Known, late: set<Write>, flushes: nat,
                         origin: Origin)

  datatype Action =
    | Call(operation: Json, result: Json, query: Option<Text>, now: nat)
    | Fail(at: nat)
    | RenameTranscript
    | RenameReplay
    | Acknowledge
    | FailTranscript
    | FailReplay
    | Land(write: Write)
    | CrashAndResume

  /** A flush whose printing throws writes nothing. */
  function BeginFlush(env: Setup, w: World, now: nat): World {
    var texts := FlushTexts(env, w.memory, now);
    if texts.Success? then w.(flight := InFlight(texts.value, false, false), flushes := w.flushes + 1) else w
  }

  /** A rename that was still to come when the flush before it failed. */
  function Landed(w: World, l: Write): World {
    var v := w.(late := w.late - {l});
    if l.transcript then v.(disk := w.disk.(transcript := l.text), origin := w.origin.(transcript := l.flush))
    else v.(disk := w.disk.(replay := l.text), origin := w.origin.(replay := l.flush))
  }

  function AllKnown(m: Memory): Known {
    Known(NormalItems(m.dependencies), NormalItems(m.replayEntries), m.hadFailure)
  }

  /** `serializeMutation` starts a call when the flush before it has settled. `Promise.all` settles at the first write
      that fails: the call throws, the next one may start, and the other write goes on. A flush throws on its transcript
      only: replay entries hold texts and always print. */
  function Act(env: Setup, w: World, a: Action): World {
    match a
    case Call(operation, result, query, now) =>
      if !w.flight.Idle? || !operation.Obj? then w
      else
        var (m, outcome) := Append(env, w.memory, operation, result, query);
        if m == w.memory && outcome.Throw? && |m.dependencies| < MAX_OPERATIONS then w
        else BeginFlush(env, w.(memory := m), now)
    case Fail(now) =>
      if !w.flight.Idle? then w
      else BeginFlush(env, w.(memory := w.memory.(hadFailure := true)), now)
    case RenameTranscript =>
      if !w.flight.InFlight? then w
      else
        w.(disk := w.disk.(transcript := w.flight.files.transcript), flight := w.flight.(transcriptDone := true),
           origin := w.origin.(transcript := w.flushes))
    case RenameReplay =>
      if !w.flight.InFlight? then w
      else
        w.(disk := w.disk.(replay := w.flight.files.replay), flight := w.flight.(replayDone := true),
           origin := w.origin.(replay := w.flushes))
    case Acknowledge =>
      if !w.flight.InFlight? || !w.flight.transcriptDone || !w.flight.replayDone then w
      else w.(flight := Idle, known := AllKnown(w.memory))
    case FailTranscript =>
      if !w.flight.InFlight? || w.flight.transcriptDone then w
      else if w.flight.replayDone then w.(flight := Idle)
      else w.(flight := Idle, late := w.late + {Write(false, w.flight.files.replay, w.flushes)})
    case FailReplay =>
      if !w.flight.InFlight? || w.flight.replayDone then w
      else if w.flight.transcriptDone then w.(flight := Idle)
      else w.(flight := Idle, late := w.late + {Write(true, w.flight.files.transcript, w.flushes)})
    case Land(l) =>
      if l !in w.late then w else Landed(w, l)
    case CrashAndResume =>
      if w.flight.Stopped? then w
      else
        var restored := Resume(env, w.disk);
        if restored.Success? then w.(memory := restored.value, flight := Idle, late := {})
        else w.(flight := Stopped, late := {})
  }

  /** `initialize`: two empty files, then the flush of an empty recorder. */
  function Start(env: Setup, now: nat): World {
    BeginFlush(env, World(EMPTY, Files([], []), Idle, NOTHING, {}, 0, Origin(0, 0)), now)
  }

  function Run(env: Setup, now: nat, actions: seq<Action>): World {
    if actions == [] then Start(env, now)
    else Act(env, Run(env, now, actions[..|actions| - 1]), actions[|actions| - 1])
  }

  ghost predicate ActionOk(env: Setup, a: Action) {
    match a
    case Call(operation, result, query, now) => RequestOk(env, operation, result, query) && GoodTime(now)
    case Fail(now) => GoodTime(now)
    case _ => true
  }

  /** The step lands no write of an older flush over the file of a newer one. */
  predicate InOrder(w: World, a: Action) {
    a.Land? && a.write in w.late ==>
      a.write.flush > (if a.write.transcript then w.origin.transcript else w.origin.replay)
  }

  /** Every step of the run is in order. */
  predicate RunInOrder(env: Setup, now: nat, actions: seq<Action>) {
    actions != [] ==>
      var last := |actions| - 1;
      RunInOrder(env, now, actions[..last]) && InOrder(Run(env, now, actions[..last]), actions[last])
  }

  ghost predicate RunOk(env: Setup, now: nat, actions: seq<Action>) {
    GoodSetup(env) && GoodTime(now) && forall a | a in actions :: ActionOk(env, a)
  }

  // ---- append keeps the chain ----

  ghost predicate Shapes(env: Setup, m: Memory) {
    && (forall i :: 0 <= i < |m.dependencies| ==> Shaped(env, m.dependencies[i]))
    && AllReplayShaped(env, m.replayEntries)
  }

  lemma SetFieldGet(fields: seq<Field>, k: Text, v: Json, other: Text)
    requires DistinctKeys(fields) && k != other
    ensures Get(Obj(SetField(fields, k, v)), other) == Get(Obj(fields), other)
  {
    var r := SetField(fields, k, v);
    SetFieldKeys(fields, k, v);
    if HasKey(fields, other) {
      var i := IndexOf(fields, other);
      assert r[i] == fields[i];
      IndexUnique(r, i);
    } else {
      assert forall i :: 0 <= i < |r| ==> r[i].key != other;
    }
  }

  lemma RecordedOk(env: Setup, sequence: nat, operation: Json, query: Option<Text>)
    requires operation.Obj? && WellFormed(env.codec, operation)
    ensures var r := Recorded(env, sequence, operation, query);
      && WellFormed(env.codec, r) && r.Obj?
      && Get(r, KIND) == Get(operation, KIND)
      && (Defined(operation) ==> Defined(r))
  {
    hide U, QueryDigest, ReplayHandle, Get;
    if query.Some? {
      var digest := Str(QueryDigest(env, query.value));
      var handleHash := Str(env.sha(ReplayHandle(env, Integer(sequence), Str(query.value))));
      var f := SetField(operation.fields, QUERY_DIGEST, digest);
      SetFieldKeys(operation.fields, QUERY_DIGEST, digest);
      SetFieldKeys(f, REPLAY_HANDLE_HASH, handleHash);
      KindIsApart();
      SetFieldGet(operation.fields, QUERY_DIGEST, digest, KIND);
      SetFieldGet(f, REPLAY_HANDLE_HASH, handleHash, KIND);
    }
  }

  lemma KindIsApart()
    ensures KIND != QUERY_DIGEST && KIND != REPLAY_HANDLE_HASH
  {
    assert |KIND| == 4 && |QUERY_DIGEST| == 11 && |REPLAY_HANDLE_HASH| == 16;
  }

  lemma NewEntryFields(env: Setup, deps: seq<Json>, operation: Json, result: Json)
    requires Printable(operation)
    ensures var e := NewEntry(env, deps, operation, result);
      && e.Obj? && (forall k | k in ENTRY_KEYS :: HasKey(e.fields, k))
      && Get(e, SEQUENCE) == Integer(|deps| + 1)
      && Get(e, PREVIOUS_EVENT_HASH) == HashBefore(env, deps, |deps|)
      && Get(e, OPERATION_KEY) == Str(env.sha(Print(env.codec, operation)))
      && Get(e, OPERATION) == operation && Get(e, RESULT) == result
      && Get(e, EVENT_HASH) == EventHash(env, e)
  {
    hide U, Get, Wire, Print;
    NamesAreGood();
    var fields := [Integer(|deps| + 1), HashBefore(env, deps, |deps|),
                   Str(env.sha(Print(env.codec, operation))), operation, result];
    var all := fields + [EventHash(env, Record(ENTRY_KEYS[..5], fields))];
    GetRecord(ENTRY_KEYS, all, 0);
    GetRecord(ENTRY_KEYS, all, 1);
    GetRecord(ENTRY_KEYS, all, 2);
    GetRecord(ENTRY_KEYS, all, 3);
    GetRecord(ENTRY_KEYS, all, 4);
    GetRecord(ENTRY_KEYS, all, 5);
    GetRecord(ENTRY_KEYS[..5], fields, 0);
    GetRecord(ENTRY_KEYS[..5], fields, 1);
    GetRecord(ENTRY_KEYS[..5], fields, 2);
    GetRecord(ENTRY_KEYS[..5], fields, 3);
    GetRecord(ENTRY_KEYS[..5], fields, 4);
  }

  lemma AtomsWellFormed(c: NumberCodec)
    ensures forall t :: WellFormed(c, Str(t)) && Printable(Str(t))
  {
  }

  lemma EntryWellFormed(c: NumberCodec, v0: Json, v1: Json, v2: Json, v3: Json, v4: Json, v5: Json)
    requires WellFormed(c, v0) && WellFormed(c, v1) && WellFormed(c, v2)
    requires WellFormed(c, v3) && WellFormed(c, v4) && WellFormed(c, v5)
    ensures WellFormed(c, Record(ENTRY_KEYS, [v0, v1, v2, v3, v4, v5]))
  {
    hide U, WellFormed;
    NamesAreGood();
    RecordWellFormed(c, ENTRY_KEYS, [v0, v1, v2, v3, v4, v5]);
  }

  lemma NewEntryOk(env: Setup, m: Memory, operation: Json, result: Json)
    requires GoodSetup(env) && ValidMemory(env, m) && |m.dependencies| < MAX_OPERATIONS
    requires WellFormed(env.codec, operation) && WellFormed(env.codec, result) && Printable(operation)
    requires Get(result, COMPLETE).Bool? && Get(result, TRUNCATED).Bool?
    ensures var e := NewEntry(env, m.dependencies, operation, result);
      && Shaped(env, e)
      && EntryOk(env, e, |m.dependencies| + 1, HashBefore(env, m.dependencies, |m.dependencies|))
  {
    hide U, Get, Wire, Print, WellFormed, Chain, ReplayEntryOk, Complete;
    var deps := m.dependencies;
    NewEntryFields(env, deps, operation, result);
    IntegerWellFormed(env.codec, |deps| + 1);
    ChainHashesAreTexts(env, deps, |deps|);
    AtomsWellFormed(env.codec);
    var e := NewEntry(env, deps, operation, result);
    EntryWellFormed(env.codec, Integer(|deps| + 1), HashBefore(env, deps, |deps|),
                    Str(env.sha(Print(env.codec, operation))), operation, result, e.fields[5].value);
    assert e == Record(ENTRY_KEYS, [Integer(|deps| + 1), HashBefore(env, deps, |deps|),
                                    Str(env.sha(Print(env.codec, operation))), operation, result, e.fields[5].value]);
  }

  lemma NewReplayEntryFields(env: Setup, sequence: nat, operation: Json, query: Text)
    requires Printable(operation)
    ensures var r := NewReplayEntry(env, sequence, operation, query);
      && r.Obj? && Get(r, REPLAY_HANDLE) == Str(ReplayHandle(env, Integer(sequence), Str(query)))
      && Get(r, OPERATION_KEY) == Str(env.sha(Print(env.codec, operation)))
      && Get(r, KIND) == Str(TEXT_SEARCH) && Get(r, QUERY) == Str(query)
  {
    hide U, Get, ReplayHandle, Print, Printable;
    NamesAreGood();
    var values := [Str(ReplayHandle(env, Integer(sequence), Str(query))),
                   Str(env.sha(Print(env.codec, operation))), Str(TEXT_SEARCH), Str(query)];
    GetRecord(REPLAY_ENTRY_KEYS, values, 0);
    GetRecord(REPLAY_ENTRY_KEYS, values, 1);
    GetRecord(REPLAY_ENTRY_KEYS, values, 2);
    GetRecord(REPLAY_ENTRY_KEYS, values, 3);
  }

  lemma NewReplayEntryShaped(env: Setup, sequence: nat, operation: Json, query: Text)
    requires GoodSetup(env) && Printable(operation)
    ensures ReplayShaped(env, NewReplayEntry(env, sequence, operation, query))
  {
    hide U, ReplayHandle, Print, WellFormed, Printable;
    NamesAreGood();
    AtomsWellFormed(env.codec);
    var values := [Str(ReplayHandle(env, Integer(sequence), Str(query))),
                   Str(env.sha(Print(env.codec, operation))), Str(TEXT_SEARCH), Str(query)];
    RecordIsPrintable(env.codec, REPLAY_ENTRY_KEYS, values);
    assert NewReplayEntry(env, sequence, operation, query) == Record(REPLAY_ENTRY_KEYS, values);
    RecordHasKeys(REPLAY_ENTRY_KEYS, values);
  }

  lemma RecordHasKeys(names: seq<Text>, values: seq<Json>)
    requires |names| == |values|
    ensures forall k | k in names :: HasKey(Record(names, values).fields, k)
  {
    forall k | k in names ensures HasKey(Record(names, values).fields, k) {
      var i :| 0 <= i < |names| && names[i] == k;
      assert Record(names, values).fields[i].key == k;
    }
  }

  lemma NewReplayEntryOk(env: Setup, deps: seq<Json>, operation: Json, result: Json, query: Text)
    requires GoodSetup(env) && Printable(operation) && Get(operation, KIND) == Str(TEXT_SEARCH)
    ensures var r := NewReplayEntry(env, |deps| + 1, operation, query);
      && ReplayShaped(env, r) && ReplayEntryShape(r)
      && Justifies(env, NewEntry(env, deps, operation, result), r)
  {
    hide U, Get, Print, Printable, NewEntry, NewReplayEntry, ReplayShaped;
    NewEntryFields(env, deps, operation, result);
    NewReplayEntryFields(env, |deps| + 1, operation, query);
    NewReplayEntryShaped(env, |deps| + 1, operation, query);
  }

  lemma JustificationGrows(env: Setup, r: Json, deps: seq<Json>, e: Json)
    requires ReplayEntryOk(env, r, deps)
    ensures ReplayEntryOk(env, r, deps + [e])
  {
    hide Justifies, ReplayEntryShape;
    var i :| 0 <= i < |deps| && Justifies(env, deps[i], r);
    assert Justifies(env, (deps + [e])[i], r);
  }

  lemma ChainGrows(env: Setup, deps: seq<Json>, e: Json)
    requires Chain(env, deps) && EntryOk(env, e, |deps| + 1, HashBefore(env, deps, |deps|))
    ensures Chain(env, deps + [e])
  {
    hide EntryOk, Get;
    var more := deps + [e];
    forall i | 0 <= i < |more| ensures EntryOk(env, more[i], i + 1, HashBefore(env, more, i)) {
      assert HashBefore(env, more, i) == HashBefore(env, deps, i);
    }
  }

  /** Every append leads from one valid chain to another. */
  lemma AppendKeeps(env: Setup, m: Memory, operation: Json, result: Json, query: Option<Text>)
    requires GoodSetup(env) && ValidMemory(env, m) && Shapes(env, m)
    requires RequestOk(env, operation, result, query)
    ensures ValidMemory(env, Append(env, m, operation, result, query).0)
    ensures Shapes(env, Append(env, m, operation, result, query).0)
  {
    hide U, Get, Wire, Print, Printable, Shaped, ReplayShaped, Complete, EntryOk, Justifies, ReplayEntryShape,
      NewEntry, NewReplayEntry, Recorded, HashBefore;
    var sequence := |m.dependencies| + 1;
    if sequence <= MAX_OPERATIONS {
      RecordedOk(env, sequence, operation, query);
      var recorded := Recorded(env, sequence, operation, query);
      if Printable(recorded) {
        var e := NewEntry(env, m.dependencies, recorded, result);
        NewEntryOk(env, m, recorded, result);
        ChainGrows(env, m.dependencies, e);
        var after := Append(env, m, operation, result, query).0;
        assert after.dependencies == m.dependencies + [e];
        if query.Some? {
          NewReplayEntryOk(env, m.dependencies, recorded, result, query.value);
          assert Justifies(env, after.dependencies[|m.dependencies|],
                           NewReplayEntry(env, sequence, recorded, query.value));
        }
        forall i | 0 <= i < |m.replayEntries| ensures ReplayEntryOk(env, m.replayEntries[i], after.dependencies) {
          JustificationGrows(env, m.replayEntries[i], m.dependencies, e);
        }
        if i :| 0 <= i < |after.dependencies| && !Complete(after.dependencies[i]) {
          assert i < |m.dependencies| ==> after.dependencies[i] == m.dependencies[i];
        }
      }
    }
  }
}
