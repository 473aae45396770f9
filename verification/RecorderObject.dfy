/** The recorder as an object that its calls change in place, over two state files. */
module RecorderObject {
  import opened Options
  import opened Texts
  import opened Json
  import opened Recorder
  import opened RecorderLaws

  /** The two state files. */
  class StateFiles {
    var transcript: Text
    var replay: Text

    constructor ()
      ensures transcript == [] && replay == []
    {
      transcript, replay := [], [];
    }

    function Contents(): Files
      reads this
    {
      Files(transcript, replay)
    }
  }

  /** A flush prints the transcript and starts to write it before it prints the replay material: what it leaves on
      disk, and what the call that made it gives back. */
  predicate Flushed<T(==)>(
    env: Setup, m: Memory, now: nat, done: Outcome<T>, r: Outcome<T>, before: Files, after: Files) {
    var transcript := CanonicalJson(env.codec, Transcript(env, m, now));
    var replay := CanonicalJson(env.codec, ReplayMaterial(env, m));
    if transcript.Throw? then r == Throw(transcript.reason) && after == before
    else if replay.Throw? then r == Throw(replay.reason) && after == before.(transcript := transcript.value)
    else r == done && after == Files(transcript.value, replay.value)
  }

  /** Of a memory with printable replay entries a flush writes both files or none. */
  lemma FlushedIsWhole<T>(env: Setup, m: Memory, now: nat, done: Outcome<T>, r: Outcome<T>, before: Files, after: Files)
    requires Flushed(env, m, now, done, r, before, after) && GoodSetup(env) && AllReplayShaped(env, m.replayEntries)
    ensures var texts := FlushTexts(env, m, now);
      if texts.Success? then r == done && after == texts.value else r == Throw(texts.reason) && after == before
  {
    hide Print, Transcript;
    MaterialPrints(env, m.replayEntries);
  }

  lemma MaterialPrints(env: Setup, entries: seq<Json>)
    requires GoodSetup(env) && AllReplayShaped(env, entries)
    ensures forall m: Memory | m.replayEntries == entries :: Printable(ReplayMaterial(env, m))
  {
    hide U, Print;
    ListIsPrintable(env, entries);
    assert Printable(Arr(entries));
    forall m: Memory | m.replayEntries == entries ensures Printable(ReplayMaterial(env, m)) {
      var v := ReplayMaterial(env, m);
      forall f | f in v.fields ensures Printable(f.value) {
        var i :| 0 <= i < 3 && v.fields[i] == f;
      }
    }
  }

  class ContextGatewayRecorder {
    const env: Setup
    const files: StateFiles
    var dependencies: seq<Json>
    var replayEntries: seq<Json>
    var hadFailure: bool

    constructor (env: Setup, files: StateFiles)
      ensures this.env == env && this.files == files && Contents() == EMPTY
    {
      this.env, this.files := env, files;
      dependencies, replayEntries, hadFailure := [], [], false;
    }

    function Contents(): Memory
      reads this
    {
      Memory(dependencies, replayEntries, hadFailure)
    }

    /** The writes are started in order, each when its text has been printed. */
    method Flush(now: nat) returns (r: Outcome<()>)
      modifies files
      ensures Flushed(env, Contents(), now, Success(()), r, old(files.Contents()), files.Contents())
    {
      var transcript := CanonicalJson(env.codec, Transcript(env, Contents(), now));
      if transcript.Throw? {
        return Throw(transcript.reason);
      }
      files.transcript := transcript.value;
      var replay := CanonicalJson(env.codec, ReplayMaterial(env, Contents()));
      if replay.Throw? {
        return Throw(replay.reason);
      }
      files.replay := replay.value;
      return Success(());
    }

    /** `record` and `recordTextSearch`: the entry is in memory before the flush that may fail. */
    method Append(operation: Json, result: Json, query: Option<Text>, now: nat) returns (r: Outcome<Json>)
      requires operation.Obj?
      modifies this, files
      ensures var expected := Recorder.Append(env, old(Contents()), operation, result, query);
        && Contents() == expected.0
        && if expected.1.Throw? && old(|dependencies|) < MAX_OPERATIONS
           then r == expected.1 && files.Contents() == old(files.Contents())
           else Flushed(env, Contents(), now, expected.1, r, old(files.Contents()), files.Contents())
    {
      hide Get, Print, Printable, Recorded, NewEntry, NewReplayEntry, Complete;
      if |dependencies| >= MAX_OPERATIONS {
        hadFailure := true;
        var flushed := Flush(now);
        return Throw(if flushed.Throw? then flushed.reason else "context_gateway_operation_limit_exceeded");
      }
      var sequence := |dependencies| + 1;
      var recorded := Recorded(env, sequence, operation, query);
      if !Printable(recorded) {
        return Throw("context_gateway_non_finite_number");
      }
      if query.Some? {
        replayEntries := replayEntries + [NewReplayEntry(env, sequence, recorded, query.value)];
      }
      var entry := NewEntry(env, dependencies, recorded, result);
      dependencies := dependencies + [entry];
      if !Complete(entry) {
        hadFailure := true;
      }
      var flushed := Flush(now);
      r := if flushed.Success? then Success(entry) else Throw(flushed.reason);
    }

    method RecordFailure(now: nat) returns (r: Outcome<()>)
      modifies this, files
      ensures Contents() == old(Contents()).(hadFailure := true)
      ensures Flushed(env, Contents(), now, Success(()), r, old(files.Contents()), files.Contents())
    {
      hadFailure := true;
      r := Flush(now);
    }

    /** Pushes the entries one by one; a rejected entry leaves those before it, all valid, in memory. */
    method RestoreTranscript(transcript: Json) returns (r: Outcome<()>)
      requires dependencies == []
      modifies this
      ensures replayEntries == old(replayEntries)
      ensures var expected := Recorder.RestoreTranscript(env, transcript);
        if expected.Success? then r == Success(()) && (dependencies, hadFailure) == expected.value
        else r == Throw(expected.reason) && hadFailure == old(hadFailure) && Chain(env, dependencies)
    {
      hide Get, EntryOk, Complete, U, SafeInteger, Chain, HashBefore;
      ChainStarts(env);
      if !TranscriptIdentityOk(env, transcript) {
        return Throw("transcript_identity_invalid");
      }
      var items := Get(transcript, DEPENDENCIES).items;
      var previous := Str(env.eventChainSeedHash);
      var index := 0;
      assert items[..0] == [];
      while index < |items|
        invariant index <= |items| && dependencies == items[..index]
        invariant previous == HashBefore(env, items, index)
        invariant Chain(env, items[..index])
        invariant replayEntries == old(replayEntries) && hadFailure == old(hadFailure)
      {
        ChainStep(env, items, index);
        if !EntryOk(env, items[index], index + 1, previous) {
          return Throw("transcript_chain_invalid");
        }
        dependencies := dependencies + [items[index]];
        previous := Get(items[index], EVENT_HASH);
        index := index + 1;
      }
      assert items[..index] == items;
      if Get(transcript, AUTHENTICATED_CHAIN_HASH) != previous
         || ((exists i :: 0 <= i < |items| && !Complete(items[i])) && !Get(transcript, HAD_FAILURE).b) {
        return Throw("transcript_state_invalid");
      }
      hadFailure := Get(transcript, HAD_FAILURE).b;
      return Success(());
    }

    method RestoreReplayMaterial(replay: Json) returns (r: Outcome<()>)
      requires replayEntries == []
      modifies this
      ensures dependencies == old(dependencies) && hadFailure == old(hadFailure)
      ensures var expected := Recorder.RestoreReplay(env, replay, dependencies);
        if expected.Success? then r == Success(()) && replayEntries == expected.value
        else r == Throw(expected.reason)
    {
      hide Get, ReplayEntryShape, Justifies, RestoreEntries;
      if !ReplayIdentityOk(env, replay, |dependencies|) {
        return Throw("replay_identity_invalid");
      }
      var entries := Get(replay, ENTRIES).items;
      for index := 0 to |entries|
        invariant dependencies == old(dependencies) && hadFailure == old(hadFailure)
        invariant replayEntries == entries[..index]
        invariant forall i :: 0 <= i < index ==> ReplayEntryOk(env, entries[i], dependencies)
      {
        var fault := ReplayFault(env, entries[index], dependencies);
        if fault.Some? {
          FirstFault(env, entries, dependencies, index);
          return Throw(fault.value);
        }
        replayEntries := replayEntries + [entries[index]];
      }
      RestoreEntriesAll(env, entries, dependencies);
      return Success(());
    }

    /** `resume`: a used recorder refuses, a fresh one takes what its two files hold. */
    method ResumeFromFiles() returns (r: Outcome<()>)
      modifies this
      ensures old(dependencies != [] || replayEntries != []) ==>
        r == Throw("recorder_already_active") && Contents() == old(Contents())
      ensures old(dependencies == [] && replayEntries == []) ==>
        var expected := Resume(env, files.Contents());
        if expected.Success? then r == Success(()) && Contents() == expected.value
        else r == Throw(expected.reason)
    {
      if dependencies != [] || replayEntries != [] {
        return Throw("recorder_already_active");
      }
      if !SizeOk(files.transcript) || !SizeOk(files.replay) {
        return Throw("state_size_invalid");
      }
      var transcript := ParseCanonicalState(env.codec, files.transcript);
      if transcript.Throw? {
        return Throw(transcript.reason);
      }
      var replay := ParseCanonicalState(env.codec, files.replay);
      if replay.Throw? {
        return Throw(replay.reason);
      }
      r := RestoreTranscript(transcript.value);
      if r.Success? {
        r := RestoreReplayMaterial(replay.value);
      }
    }
  }

  lemma ChainStarts(env: Setup)
    ensures Chain(env, []) && forall items :: HashBefore(env, items, 0) == Str(env.eventChainSeedHash)
  {
  }

  /** A chain grows by a valid entry, and is broken by any other. */
  lemma ChainStep(env: Setup, items: seq<Json>, index: nat)
    requires index < |items| && Chain(env, items[..index])
    ensures EntryOk(env, items[index], index + 1, HashBefore(env, items, index)) ==> Chain(env, items[..index + 1])
    ensures !EntryOk(env, items[index], index + 1, HashBefore(env, items, index)) ==> !Chain(env, items)
    ensures HashBefore(env, items, index + 1) == Get(items[index], EVENT_HASH)
  {
    hide Get, EntryOk;
    var longer := items[..index + 1];
    if EntryOk(env, items[index], index + 1, HashBefore(env, items, index)) {
      forall i | 0 <= i < |longer| ensures EntryOk(env, longer[i], i + 1, HashBefore(env, longer, i)) {
        assert HashBefore(env, longer, i) == HashBefore(env, items, i);
        if i < index {
          assert longer[i] == items[..index][i];
          assert HashBefore(env, items[..index], i) == HashBefore(env, items, i);
        }
      }
    }
  }

  /** The first rejected replay entry decides the error. */
  lemma FirstFault(env: Setup, entries: seq<Json>, deps: seq<Json>, n: nat)
    requires n < |entries| && ReplayFault(env, entries[n], deps).Some?
    requires forall i :: 0 <= i < n ==> ReplayEntryOk(env, entries[i], deps)
    ensures RestoreEntries(env, entries, deps) == Throw(ReplayFault(env, entries[n], deps).value)
  {
    hide ReplayEntryShape, Justifies;
    if n > 0 {
      FirstFault(env, entries[1..], deps, n - 1);
    }
  }
}
