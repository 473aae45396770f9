/** The invariant of every run of the recorder, and the crash-safety theorems it gives. */
module RecorderSafety {
  import opened Options
  import opened Texts
  import opened Json
  import opened JsonLaws
  import opened CanonicalTheorems
  import opened Recorder
  import opened RecorderLaws
  import opened RecorderCrash

  // ---- resume ----

  /** The result of any successful resume is a valid memory. */
  lemma ResumeIsValid(env: Setup, files: Files)
    requires Resume(env, files).Success?
    ensures ValidMemory(env, Resume(env, files).value)
  {
    hide Get, ParseCanonicalState, EntryOk, ReplayEntryOk, Complete, U;
    var t := ParseCanonicalState(env.codec, files.transcript).value;
    var r := ParseCanonicalState(env.codec, files.replay).value;
    var deps := RestoreTranscript(env, t).value.0;
    RestoreEntriesAll(env, Get(r, ENTRIES).items, deps);
  }

  function TranscriptText(env: Setup, m: Memory, now: nat): Text
    requires Printable(Transcript(env, m, now))
  {
    Print(env.codec, Transcript(env, m, now))
  }

  function ReplayText(env: Setup, m: Memory): Text
    requires Printable(ReplayMaterial(env, m))
  {
    Print(env.codec, ReplayMaterial(env, m))
  }

  /** The files of two flushes, `t` for the transcript and `r` for the replay material. */
  ghost predicate FilesOf(env: Setup, t: Memory, r: Memory, now: nat, files: Files) {
    && Writable(env, t, now) && Writable(env, r, now)
    && Printable(Transcript(env, t, now)) && files.transcript == TranscriptText(env, t, now)
    && Printable(ReplayMaterial(env, r)) && files.replay == ReplayText(env, r)
  }

  /** What a resume makes of the files of two flushes, when it does not throw. */
  lemma ResumeFiles(env: Setup, t: Memory, r: Memory, now: nat, files: Files)
    requires FilesOf(env, t, r, now, files)
    ensures Resume(env, files).Success? ==>
      Resume(env, files).value
      == Memory(NormalItems(t.dependencies), NormalItems(r.replayEntries), t.hadFailure)
    ensures Resume(env, files).Success? <==>
      && SizeOk(files.transcript) && SizeOk(files.replay)
      && |t.dependencies| <= MAX_OPERATIONS && Chain(env, NormalItems(t.dependencies))
      && ((exists i :: 0 <= i < |t.dependencies| && !Complete(NormalItems(t.dependencies)[i])) ==> t.hadFailure)
      && HashBefore(env, NormalItems(t.dependencies), |t.dependencies|)
         == HashBefore(env, t.dependencies, |t.dependencies|)
      && |r.replayEntries| <= |t.dependencies|
      && forall i :: 0 <= i < |r.replayEntries| ==>
           ReplayEntryOk(env, NormalItems(r.replayEntries)[i], NormalItems(t.dependencies))
  {
    hide Get, U, Normal, Print, EntryOk, ReplayEntryOk, Complete, SizeOk, HashBefore, ParseCanonicalState,
      ReplayIdentityOk, TranscriptIdentityOk, Transcript, ReplayMaterial;
    TranscriptPrints(env, t, now);
    ReplayPrints(env, r, now);
    ReadBack(env.codec, Transcript(env, t, now));
    ReadBack(env.codec, ReplayMaterial(env, r));
    TranscriptReadBack(env, t, now);
    ReplayReadBack(env, r);
    RestoreEntriesAll(env, NormalItems(r.replayEntries), NormalItems(t.dependencies));
  }

  // ---- the invariant ----

  /** The part of a memory that a transcript or a replay file holds. */
  function FirstEntries(m: Memory, n: nat, failure: bool): Memory
    requires n <= |m.dependencies|
  {
    Memory(m.dependencies[..n], [], failure)
  }

  function FirstQueries(m: Memory, n: nat): Memory
    requires n <= |m.replayEntries|
  {
    Memory([], m.replayEntries[..n], false)
  }

  /** An incomplete or truncated result is flagged. */
  predicate Flagged(m: Memory) {
    (exists i :: 0 <= i < |m.dependencies| && !Complete(m.dependencies[i])) ==> m.hadFailure
  }

  /** The text is the transcript of the first `n` entries. */
  ghost predicate TranscriptIs(env: Setup, m: Memory, text: Text, n: nat, failure: bool, now: nat) {
    && n <= |m.dependencies| && (failure ==> m.hadFailure) && GoodTime(now) && Flagged(FirstEntries(m, n, failure))
    && var t := FirstEntries(m, n, failure);
       Printable(Transcript(env, t, now)) && text == TranscriptText(env, t, now)
  }

  ghost predicate ReplayIs(env: Setup, m: Memory, text: Text, n: nat) {
    && n <= |m.replayEntries|
    && var r := FirstQueries(m, n);
       Printable(ReplayMaterial(env, r)) && text == ReplayText(env, r)
  }

  /** The first `n` entries are all that callers know, at least. */
  predicate CoversEntries(known: Known, n: nat, failure: bool) {
    |known.entries| <= n && (known.failure ==> failure)
  }

  /** The transcript on disk is that of the first `n` entries, and covers what callers know. */
  ghost predicate TranscriptAt(env: Setup, w: World, n: nat, failure: bool, now: nat) {
    TranscriptIs(env, w.memory, w.disk.transcript, n, failure, now) && CoversEntries(w.known, n, failure)
  }

  ghost predicate ReplayAt(env: Setup, w: World, n: nat) {
    ReplayIs(env, w.memory, w.disk.replay, n) && |w.known.queries| <= n
  }

  ghost predicate TranscriptOk(env: Setup, w: World) {
    || (w.disk.transcript == [] && w.known.entries == [] && !w.known.failure)
    || exists n, failure, now :: TranscriptAt(env, w, n, failure, now)
  }

  ghost predicate ReplayOk(env: Setup, w: World) {
    (w.disk.replay == [] && w.known.queries == []) || exists n :: ReplayAt(env, w, n)
  }

  ghost predicate KnownOk(w: World) {
    && w.known.entries <= NormalItems(w.memory.dependencies)
    && w.known.queries <= NormalItems(w.memory.replayEntries)
    && (w.known.failure ==> w.memory.hadFailure)
  }

  /** A write left behind holds a front of the memory; one that is newer than the file covers what callers know. */
  ghost predicate LateTranscriptAt(env: Setup, w: World, l: Write, n: nat, failure: bool, now: nat) {
    && TranscriptIs(env, w.memory, l.text, n, failure, now)
    && (l.flush > w.origin.transcript ==> CoversEntries(w.known, n, failure))
  }

  ghost predicate LateReplayAt(env: Setup, w: World, l: Write, n: nat) {
    ReplayIs(env, w.memory, l.text, n) && (l.flush > w.origin.replay ==> |w.known.queries| <= n)
  }

  ghost predicate LateOk(env: Setup, w: World, l: Write) {
    && l.flush <= w.flushes && (w.flight.InFlight? ==> l.flush < w.flushes)
    && (l.transcript ==> exists n, failure, now :: LateTranscriptAt(env, w, l, n, failure, now))
    && (!l.transcript ==> exists n :: LateReplayAt(env, w, l, n))
  }

  ghost predicate LatesOk(env: Setup, w: World) {
    && w.origin.transcript <= w.flushes && w.origin.replay <= w.flushes
    && forall l | l in w.late :: LateOk(env, w, l)
  }

  ghost predicate FlightAt(env: Setup, w: World, now: nat)
    requires w.flight.InFlight?
  {
    && GoodTime(now)
    && Printable(Transcript(env, w.memory, now)) && w.flight.files.transcript == TranscriptText(env, w.memory, now)
    && Printable(ReplayMaterial(env, w.memory)) && w.flight.files.replay == ReplayText(env, w.memory)
    && (w.flight.transcriptDone && w.origin.transcript == w.flushes ==>
          w.disk.transcript == w.flight.files.transcript)
    && (w.flight.replayDone && w.origin.replay == w.flushes ==> w.disk.replay == w.flight.files.replay)
  }

  ghost predicate Inv(env: Setup, w: World) {
    && ValidMemory(env, w.memory) && Shapes(env, w.memory)
    && KnownOk(w) && TranscriptOk(env, w) && ReplayOk(env, w) && LatesOk(env, w)
    && (w.flight.InFlight? ==> exists now :: FlightAt(env, w, now))
  }

  /** What the flush under way has renamed is still in its place. */
  predicate InPlace(w: World) {
    w.flight.InFlight? ==>
      && (w.flight.transcriptDone ==> w.origin.transcript == w.flushes)
      && (w.flight.replayDone ==> w.origin.replay == w.flushes)
  }

  /** The world in which callers know nothing: its invariant is what holds whatever lands on the disk. */
  function Forgot(w: World): World { w.(known := NOTHING) }

  lemma PrintableEntries(env: Setup, m: Memory, now: nat)
    requires Printable(Transcript(env, m, now))
    ensures forall i :: 0 <= i < |m.dependencies| ==> Printable(m.dependencies[i])
  {
    hide U, Get;
    var t := Transcript(env, m, now);
    assert t.fields[7] in t.fields && t.fields[7].value == Arr(m.dependencies);
    assert Printable(Arr(m.dependencies));
  }

  lemma PrintableQueries(env: Setup, m: Memory)
    requires AllReplayShaped(env, m.replayEntries)
    ensures Printable(ReplayMaterial(env, m))
  {
    hide U, Get;
    var r := ReplayMaterial(env, m);
    forall f | f in r.fields ensures Printable(f.value) {
      var i :| 0 <= i < 3 && r.fields[i] == f;
    }
  }

  lemma ChainPrefix(env: Setup, deps: seq<Json>, n: nat)
    requires Chain(env, deps) && n <= |deps|
    ensures Chain(env, deps[..n])
  {
    hide EntryOk, Get;
    forall i | 0 <= i < n ensures EntryOk(env, deps[..n][i], i + 1, HashBefore(env, deps[..n], i)) {
      assert HashBefore(env, deps[..n], i) == HashBefore(env, deps, i);
    }
  }

  lemma FirstEntriesWritable(env: Setup, m: Memory, n: nat, failure: bool, now: nat)
    requires GoodSetup(env) && ValidMemory(env, m) && Shapes(env, m) && n <= |m.dependencies| && GoodTime(now)
    requires Printable(Transcript(env, FirstEntries(m, n, failure), now))
    ensures Writable(env, FirstEntries(m, n, failure), now)
  {
    hide Shaped, ReplayShaped, Chain, Transcript, Printable, ReplayEntryOk, Complete;
    ChainPrefix(env, m.dependencies, n);
    PrintableEntries(env, FirstEntries(m, n, failure), now);
  }

  lemma FirstQueriesWritable(env: Setup, m: Memory, n: nat, now: nat)
    requires GoodSetup(env) && Shapes(env, m) && n <= |m.replayEntries| && GoodTime(now)
    ensures Writable(env, FirstQueries(m, n), now)
    ensures Printable(ReplayMaterial(env, FirstQueries(m, n)))
  {
    hide Shaped, ReplayShaped;
    PrintableQueries(env, FirstQueries(m, n));
  }

  // ---- each step keeps the invariant ----

  /** What a text is of a memory it is of a longer one. */
  lemma TextsCarry(env: Setup, m: Memory, r: Memory)
    requires m.dependencies <= r.dependencies && m.replayEntries <= r.replayEntries && (m.hadFailure ==> r.hadFailure)
    ensures forall text, n, failure, now ::
      TranscriptIs(env, m, text, n, failure, now) ==> TranscriptIs(env, r, text, n, failure, now)
    ensures forall text, n :: ReplayIs(env, m, text, n) ==> ReplayIs(env, r, text, n)
  {
    hide Transcript, ReplayMaterial, Printable, TranscriptText, ReplayText, Flagged;
    forall text, n, failure, now | TranscriptIs(env, m, text, n, failure, now)
      ensures TranscriptIs(env, r, text, n, failure, now)
    {
      assert FirstEntries(r, n, failure) == FirstEntries(m, n, failure);
    }
    forall text, n | ReplayIs(env, m, text, n) ensures ReplayIs(env, r, text, n) {
      assert FirstQueries(r, n) == FirstQueries(m, n);
    }
  }

  /** A write left behind stays as it is while the memory grows and the file gets no older. */
  lemma LateKeeps(env: Setup, w: World, v: World, l: Write)
    requires LateOk(env, w, l) && l.flush <= v.flushes && (v.flight.InFlight? ==> l.flush < v.flushes)
    requires w.memory.dependencies <= v.memory.dependencies && w.memory.replayEntries <= v.memory.replayEntries
    requires w.memory.hadFailure ==> v.memory.hadFailure
    requires v.known == NOTHING ||
      (v.known == w.known && w.origin.transcript <= v.origin.transcript && w.origin.replay <= v.origin.replay)
    ensures LateOk(env, v, l)
  {
    hide TranscriptIs, ReplayIs;
    TextsCarry(env, w.memory, v.memory);
    if l.transcript {
      var n, failure, now :| LateTranscriptAt(env, w, l, n, failure, now);
      assert LateTranscriptAt(env, v, l, n, failure, now);
    } else {
      var n :| LateReplayAt(env, w, l, n);
      assert LateReplayAt(env, v, l, n);
    }
  }

  /** More memory over the same disk keeps what is said of the disk. */
  lemma GrowthKeeps(env: Setup, w: World, m: Memory)
    requires KnownOk(w) && TranscriptOk(env, w) && ReplayOk(env, w) && LatesOk(env, w)
    requires w.memory.dependencies <= m.dependencies && w.memory.replayEntries <= m.replayEntries
    requires w.memory.hadFailure ==> m.hadFailure
    ensures var v := w.(memory := m); KnownOk(v) && TranscriptOk(env, v) && ReplayOk(env, v) && LatesOk(env, v)
  {
    hide TranscriptIs, ReplayIs, Normal, LateOk;
    var v := w.(memory := m);
    TextsCarry(env, w.memory, m);
    if n, failure, now :| TranscriptAt(env, w, n, failure, now) {
      assert TranscriptAt(env, v, n, failure, now);
    }
    if n :| ReplayAt(env, w, n) {
      assert ReplayAt(env, v, n);
    }
    forall l | l in v.late ensures LateOk(env, v, l) {
      LateBounds(env, w, l);
      LateKeeps(env, w, v, l);
    }
  }

  lemma LateBounds(env: Setup, w: World, l: Write)
    requires LateOk(env, w, l)
    ensures l.flush <= w.flushes && (w.flight.InFlight? ==> l.flush < w.flushes)
  {
  }

  /** The same disk, memory and knowledge beside another flight. */
  lemma DiskKeeps(env: Setup, w: World, v: World)
    requires TranscriptOk(env, w) && ReplayOk(env, w)
    requires v.memory == w.memory && v.disk == w.disk && (v.known == w.known || v.known == NOTHING)
    ensures TranscriptOk(env, v) && ReplayOk(env, v)
  {
    hide TranscriptIs, ReplayIs;
    if n, failure, now :| TranscriptAt(env, w, n, failure, now) {
      assert TranscriptAt(env, v, n, failure, now);
    }
    if n :| ReplayAt(env, w, n) {
      assert ReplayAt(env, v, n);
    }
  }

  lemma BeginFlushKeeps(env: Setup, w: World, now: nat)
    requires GoodTime(now) && w.flight.Idle? && Inv(env, w)
    ensures Inv(env, BeginFlush(env, w, now)) && InPlace(BeginFlush(env, w, now))
  {
    hide Transcript, ReplayMaterial, Printable, Print, ValidMemory, Shapes, Normal, TranscriptOk, ReplayOk, LateOk;
    var v := BeginFlush(env, w, now);
    DiskKeeps(env, w, v);
    forall l | l in v.late ensures LateOk(env, v, l) {
      LateBounds(env, w, l);
      LateKeeps(env, w, v, l);
    }
    if v.flight.InFlight? {
      assert FlightAt(env, v, now);
    }
  }

  lemma CallKeeps(env: Setup, w: World, a: Action)
    requires GoodSetup(env) && Inv(env, w) && ActionOk(env, a) && (a.Call? || a.Fail?)
    ensures Inv(env, Act(env, w, a)) && (InPlace(w) ==> InPlace(Act(env, w, a)))
  {
    hide TranscriptOk, ReplayOk, KnownOk, LatesOk, FlightAt, ValidMemory, Shapes, BeginFlush, WellFormed, Get;
    if w.flight.Idle? {
      var m, now;
      if a.Call? {
        AppendKeeps(env, w.memory, a.operation, a.result, a.query);
        AppendGrows(env, w.memory, a.operation, a.result, a.query);
        m, now := Append(env, w.memory, a.operation, a.result, a.query).0, a.now;
      } else {
        FailureKeeps(env, w.memory);
        m, now := w.memory.(hadFailure := true), a.at;
      }
      GrowthKeeps(env, w, m);
      BeginFlushKeeps(env, w.(memory := m), now);
    }
  }

  lemma FailureKeeps(env: Setup, m: Memory)
    requires ValidMemory(env, m) && Shapes(env, m)
    ensures ValidMemory(env, m.(hadFailure := true)) && Shapes(env, m.(hadFailure := true))
  {
    hide Shaped, ReplayShaped, EntryOk, Complete, ReplayEntryOk;
  }

  lemma AppendGrows(env: Setup, m: Memory, operation: Json, result: Json, query: Option<Text>)
    requires operation.Obj?
    ensures var r := Append(env, m, operation, result, query).0;
      m.dependencies <= r.dependencies && m.replayEntries <= r.replayEntries && (m.hadFailure ==> r.hadFailure)
  {
    hide Recorded, Printable, NewEntry, NewReplayEntry, Complete;
  }

  /** The texts of a flush are those of the whole memory. */
  lemma FlightTexts(env: Setup, w: World, now: nat)
    requires w.flight.InFlight? && FlightAt(env, w, now) && ValidMemory(env, w.memory)
    ensures var m, files := w.memory, w.flight.files;
      && TranscriptIs(env, m, files.transcript, |m.dependencies|, m.hadFailure, now)
      && ReplayIs(env, m, files.replay, |m.replayEntries|)
  {
    hide Transcript, ReplayMaterial, Printable, Print, Complete, Chain, ReplayEntryOk;
    var m := w.memory;
    var entries, queries := FirstEntries(m, |m.dependencies|, m.hadFailure), FirstQueries(m, |m.replayEntries|);
    assert entries.dependencies == m.dependencies && queries.replayEntries == m.replayEntries;
    TranscriptIgnoresQueries(env, m, entries, now);
    ReplayIgnoresEntries(env, m, queries);
  }

  lemma KnownIsCovered(w: World)
    requires KnownOk(w)
    ensures CoversEntries(w.known, |w.memory.dependencies|, w.memory.hadFailure)
    ensures |w.known.queries| <= |w.memory.replayEntries|
  {
    hide Normal;
  }

  lemma RenameKeeps(env: Setup, w: World, a: Action)
    requires Inv(env, w) && (a.RenameTranscript? || a.RenameReplay?)
    ensures Inv(env, Act(env, w, a)) && (InPlace(w) ==> InPlace(Act(env, w, a)))
  {
    hide Transcript, ReplayMaterial, Printable, Print, ValidMemory, Shapes, Normal, TranscriptIs, ReplayIs, LateOk,
      KnownOk;
    if w.flight.InFlight? {
      var v, m := Act(env, w, a), w.memory;
      var now :| FlightAt(env, w, now);
      assert FlightAt(env, v, now);
      FlightTexts(env, w, now);
      KnownIsCovered(w);
      if n, failure, at :| TranscriptAt(env, w, n, failure, at) {
        assert a.RenameReplay? ==> TranscriptAt(env, v, n, failure, at);
      }
      if n :| ReplayAt(env, w, n) {
        assert a.RenameTranscript? ==> ReplayAt(env, v, n);
      }
      if a.RenameTranscript? {
        assert TranscriptAt(env, v, |m.dependencies|, m.hadFailure, now);
      } else {
        assert ReplayAt(env, v, |m.replayEntries|);
      }
      forall l | l in v.late ensures LateOk(env, v, l) {
        LateBounds(env, w, l);
        LateKeeps(env, w, v, l);
      }
      KnownKeeps(w, v);
    }
  }

  lemma KnownKeeps(w: World, v: World)
    requires KnownOk(w) && v.memory == w.memory && (v.known == w.known || v.known == NOTHING)
    ensures KnownOk(v)
  {
  }

  lemma TranscriptIgnoresQueries(env: Setup, m: Memory, n: Memory, now: nat)
    requires m.dependencies == n.dependencies && m.hadFailure == n.hadFailure
    ensures Transcript(env, m, now) == Transcript(env, n, now)
  {
  }

  lemma ReplayIgnoresEntries(env: Setup, m: Memory, n: Memory)
    requires m.replayEntries == n.replayEntries
    ensures ReplayMaterial(env, m) == ReplayMaterial(env, n)
  {
  }

  /** With what was renamed in its place, the whole memory is on disk, and nothing left behind is newer. */
  lemma AcknowledgeKeeps(env: Setup, w: World)
    requires Inv(env, w) && InPlace(w)
    ensures Inv(env, Act(env, w, Acknowledge)) && InPlace(Act(env, w, Acknowledge))
  {
    hide Transcript, ReplayMaterial, Printable, Print, ValidMemory, Shapes, Normal, TranscriptIs, ReplayIs, LateOk;
    if w.flight.InFlight? && w.flight.transcriptDone && w.flight.replayDone {
      var v, m := Act(env, w, Acknowledge), w.memory;
      var now :| FlightAt(env, w, now);
      FlightTexts(env, w, now);
      assert TranscriptAt(env, v, |m.dependencies|, m.hadFailure, now);
      assert ReplayAt(env, v, |m.replayEntries|);
      forall l | l in v.late ensures LateOk(env, v, l) {
        LateBounds(env, w, l);
        OldLateKeeps(env, w, v, l);
      }
    }
  }

  lemma OldLateKeeps(env: Setup, w: World, v: World, l: Write)
    requires LateOk(env, w, l) && v.memory == w.memory && v.flushes == w.flushes && v.flight.Idle?
    requires l.flush <= v.origin.transcript && l.flush <= v.origin.replay
    ensures LateOk(env, v, l)
  {
    hide TranscriptIs, ReplayIs;
    if l.transcript {
      var n, failure, now :| LateTranscriptAt(env, w, l, n, failure, now);
      assert LateTranscriptAt(env, v, l, n, failure, now);
    } else {
      var n :| LateReplayAt(env, w, l, n);
      assert LateReplayAt(env, v, l, n);
    }
  }

  // ---- failing writes ----

  /** The write that a failed flush leaves behind holds the whole memory. */
  lemma WriteFailKeeps(env: Setup, w: World, a: Action)
    requires Inv(env, w) && (a.FailTranscript? || a.FailReplay?)
    ensures Inv(env, Act(env, w, a)) && (InPlace(w) ==> InPlace(Act(env, w, a)))
  {
    hide ValidMemory, Shapes, TranscriptIs, ReplayIs, LateOk, KnownOk, TranscriptOk, ReplayOk;
    var v, m := Act(env, w, a), w.memory;
    if v != w {
      var now :| FlightAt(env, w, now);
      FlightTexts(env, w, now);
      KnownIsCovered(w);
      DiskKeeps(env, w, v);
      KnownKeeps(w, v);
      forall l | l in v.late ensures LateOk(env, v, l) {
        if l in w.late {
          LateBounds(env, w, l);
          LateKeeps(env, w, v, l);
        } else {
          NewLate(env, v, l, now);
        }
      }
    }
  }

  lemma NewLate(env: Setup, v: World, l: Write, now: nat)
    requires var m := v.memory;
      if l.transcript then TranscriptIs(env, m, l.text, |m.dependencies|, m.hadFailure, now)
      else ReplayIs(env, m, l.text, |m.replayEntries|)
    requires CoversEntries(v.known, |v.memory.dependencies|, v.memory.hadFailure)
    requires |v.known.queries| <= |v.memory.replayEntries| && l.flush == v.flushes && !v.flight.InFlight?
    ensures LateOk(env, v, l)
  {
    hide TranscriptIs, ReplayIs;
    if l.transcript {
      assert LateTranscriptAt(env, v, l, |v.memory.dependencies|, v.memory.hadFailure, now);
    } else {
      assert LateReplayAt(env, v, l, |v.memory.replayEntries|);
    }
  }

  /** A write that lands over an older file covers what callers know. */
  lemma LandKeeps(env: Setup, w: World, l: Write)
    requires Inv(env, w) && l in w.late && (InOrder(w, Land(l)) || w.known == NOTHING)
    ensures Inv(env, Landed(w, l))
  {
    hide ValidMemory, Shapes, TranscriptIs, ReplayIs, LateOk, KnownOk, Transcript, ReplayMaterial, Printable;
    var v := Landed(w, l);
    LandedIsOk(env, w, l);
    KnownKeeps(w, v);
    LateBounds(env, w, l);
    forall k | k in v.late ensures LateOk(env, v, k) {
      LateBounds(env, w, k);
      LateKeeps(env, w, v, k);
    }
    if w.flight.InFlight? {
      var now :| FlightAt(env, w, now);
      assert FlightAt(env, v, now);
    }
  }

  lemma LandedIsOk(env: Setup, w: World, l: Write)
    requires LateOk(env, w, l) && l in w.late && (InOrder(w, Land(l)) || w.known == NOTHING)
    requires TranscriptOk(env, w) && ReplayOk(env, w)
    ensures TranscriptOk(env, Landed(w, l)) && ReplayOk(env, Landed(w, l))
  {
    hide TranscriptIs, ReplayIs;
    var v := Landed(w, l);
    if l.transcript {
      var n, failure, now :| LateTranscriptAt(env, w, l, n, failure, now);
      assert TranscriptAt(env, v, n, failure, now);
      if k :| ReplayAt(env, w, k) {
        assert ReplayAt(env, v, k);
      }
    } else {
      var n :| LateReplayAt(env, w, l, n);
      assert ReplayAt(env, v, n);
      if k, failure, now :| TranscriptAt(env, w, k, failure, now) {
        assert TranscriptAt(env, v, k, failure, now);
      }
    }
  }

  lemma LandStaysInPlace(env: Setup, w: World, l: Write)
    requires Inv(env, w) && InPlace(w) && l in w.late && InOrder(w, Land(l))
    ensures InPlace(Landed(w, l))
  {
    hide ValidMemory, Shapes, KnownOk, TranscriptOk, ReplayOk, FlightAt, LateOk;
    LateBounds(env, w, l);
  }

  lemma ForgetKeeps(env: Setup, w: World, flight: Flight)
    requires Inv(env, w) && (flight == w.flight || flight.Idle?)
    ensures Inv(env, Forgot(w).(flight := flight))
  {
    hide ValidMemory, Shapes, KnownOk, TranscriptOk, ReplayOk, LateOk, Transcript, ReplayMaterial, Printable;
    var v := Forgot(w).(flight := flight);
    DiskKeeps(env, w, v);
    KnownKeeps(w, v);
    forall l | l in v.late ensures LateOk(env, v, l) {
      LateBounds(env, w, l);
      LateKeeps(env, w, v, l);
    }
    if v.flight.InFlight? {
      var now :| FlightAt(env, w, now);
      assert FlightAt(env, v, now);
    }
  }

  // ---- a crash and a resume keep it ----

  function NormalMemory(m: Memory): Memory {
    Memory(NormalItems(m.dependencies), NormalItems(m.replayEntries), m.hadFailure)
  }

  lemma ItemsSame(c: NumberCodec, items: seq<Json>)
    requires forall i :: 0 <= i < |items| ==> WellFormed(c, items[i])
    ensures Same(Arr(items), Arr(NormalItems(items)))
  {
    forall i | 0 <= i < |items| ensures Same(items[i], NormalItems(items)[i]) {
      SameAsNormal(items[i]);
    }
  }

  lemma AtomsSame()
    ensures forall t :: Same(Str(t), Str(t))
    ensures forall b :: Same(Bool(b), Bool(b))
    ensures forall n: nat :: Same(Integer(n), Integer(n))
  {
  }

  lemma ShapesNormal(env: Setup, deps: seq<Json>)
    requires GoodSetup(env) && AllShaped(env, deps)
    ensures AllShaped(env, NormalItems(deps)) && NormalItems(NormalItems(deps)) == NormalItems(deps)
  {
    hide Shaped, Printable, Normal;
    forall i | 0 <= i < |deps|
      ensures Shaped(env, NormalItems(deps)[i]) && Printable(NormalItems(deps)[i])
      ensures NormalItems(NormalItems(deps))[i] == NormalItems(deps)[i]
    {
      ShapedNormal(env, deps[i]);
    }
  }

  lemma ReplayShapesNormal(env: Setup, rs: seq<Json>)
    requires GoodSetup(env) && AllReplayShaped(env, rs)
    ensures AllReplayShaped(env, NormalItems(rs)) && NormalItems(NormalItems(rs)) == NormalItems(rs)
  {
    hide Normal, Printable, WellFormed;
    forall i | 0 <= i < |rs|
      ensures ReplayShaped(env, NormalItems(rs)[i]) && NormalItems(NormalItems(rs))[i] == NormalItems(rs)[i]
    {
      var r := rs[i];
      NormalIsPlain(env.codec, r);
      NormalOnce(env.codec, r);
      WellFormedKeys(env.codec, r);
      forall k | k in REPLAY_ENTRY_KEYS ensures Normal(r).Obj? && HasKey(Normal(r).fields, k) {
        GetNormal(r, k);
      }
      assert REPLAY_HANDLE in REPLAY_ENTRY_KEYS;
    }
  }

  lemma WellFormedKeys(c: NumberCodec, v: Json)
    requires WellFormed(c, v) && v.Obj?
    ensures DistinctKeys(v.fields)
  {
  }

  /** A resumed recorder would flush the very transcript it was resumed from. */
  lemma TranscriptTextNormal(env: Setup, m: Memory, now: nat)
    requires Writable(env, m, now) && Printable(Transcript(env, m, now))
    requires Chain(env, NormalItems(m.dependencies))
    ensures Printable(Transcript(env, NormalMemory(m), now))
    ensures TranscriptText(env, NormalMemory(m), now) == TranscriptText(env, m, now)
  {
    hide U, Get, Print, Normal, Printable, WellFormed, Chain, Shaped, EntryOk, Sort, Lookup, Same, HashBefore;
    var deps, count := m.dependencies, |m.dependencies|;
    ShapesNormal(env, deps);
    ReplayShapesNormal(env, m.replayEntries);
    HashesSurvive(env, deps, count);
    TranscriptPrints(env, m, now);
    TranscriptPrints(env, NormalMemory(m), now);
    ShapedWellFormed(env, deps);
    ItemsSame(env.codec, deps);
    AtomsSame();
    ChainHashesAreTexts(env, deps, count);
    NamesAreGood();
    RecordSame(TRANSCRIPT_KEYS, TranscriptValues(env, m, now), TranscriptValues(env, NormalMemory(m), now));
    SamePrints(env.codec, Transcript(env, m, now), Transcript(env, NormalMemory(m), now));
  }

  lemma ShapedWellFormed(env: Setup, deps: seq<Json>)
    requires AllShaped(env, deps)
    ensures forall i :: 0 <= i < |deps| ==> WellFormed(env.codec, deps[i])
  {
    hide WellFormed, Printable;
  }

  lemma ReplayTextNormal(env: Setup, m: Memory)
    requires GoodSetup(env) && AllReplayShaped(env, m.replayEntries) && Printable(ReplayMaterial(env, m))
    ensures Printable(ReplayMaterial(env, NormalMemory(m)))
    ensures ReplayText(env, NormalMemory(m)) == ReplayText(env, m)
  {
    hide U, Get, Print, Normal, Printable, WellFormed, Sort, Lookup, Same;
    var values := [Integer(1), Str(env.sessionId), Arr(m.replayEntries)];
    var normals := [Integer(1), Str(env.sessionId), Arr(NormalItems(m.replayEntries))];
    ReplayShapesNormal(env, m.replayEntries);
    var before, after := Memory([], m.replayEntries, false), Memory([], NormalItems(m.replayEntries), false);
    ReplayPrints(env, before, 0);
    ReplayPrints(env, after, 0);
    ItemsSame(env.codec, m.replayEntries);
    AtomsSame();
    NamesAreGood();
    RecordSame(REPLAY_KEYS, values, normals);
    ReplayIgnoresEntries(env, before, m);
    ReplayIgnoresEntries(env, after, NormalMemory(m));
    SamePrints(env.codec, ReplayMaterial(env, before), ReplayMaterial(env, after));
  }

  /** A successful resume restores the first `n` entries and the first `k` queries of the memory. */
  lemma RestoredFrom(env: Setup, w: World) returns (n: nat, failure: bool, now: nat, k: nat)
    requires GoodSetup(env) && Inv(env, w) && Resume(env, w.disk).Success?
    ensures TranscriptAt(env, w, n, failure, now) && ReplayAt(env, w, k)
    ensures FilesOf(env, FirstEntries(w.memory, n, failure), FirstQueries(w.memory, k), now, w.disk)
    ensures Resume(env, w.disk).value
         == Memory(NormalItems(w.memory.dependencies[..n]), NormalItems(w.memory.replayEntries[..k]), failure)
  {
    hide Printable, Transcript, ReplayMaterial, TranscriptText, ReplayText, ValidMemory, Shapes, Writable, Normal;
    SizeOkWhenResumed(env, w.disk);
    n, failure, now :| TranscriptAt(env, w, n, failure, now);
    k :| ReplayAt(env, w, k);
    FirstEntriesWritable(env, w.memory, n, failure, now);
    FirstQueriesWritable(env, w.memory, k, now);
    ResumeFiles(env, FirstEntries(w.memory, n, failure), FirstQueries(w.memory, k), now, w.disk);
  }

  lemma SizeOkWhenResumed(env: Setup, files: Files)
    requires Resume(env, files).Success?
    ensures files.transcript != [] && files.replay != []
  {
    hide ParseCanonicalState, RestoreTranscript, RestoreReplay;
  }

  lemma ResumeKeeps(env: Setup, w: World)
    requires GoodSetup(env) && Inv(env, w) && Resume(env, w.disk).Success?
    ensures Inv(env, w.(memory := Resume(env, w.disk).value, flight := Idle, late := {}))
  {
    hide Printable, Transcript, ReplayMaterial, TranscriptText, ReplayText, ValidMemory, Normal, Resume, Shaped,
      ReplayShaped, Chain, LateOk, Flagged;
    var r := Resume(env, w.disk).value;
    var v := w.(memory := r, flight := Idle, late := {});
    var n, failure, now, k := RestoredFrom(env, w);
    var t, q := FirstEntries(w.memory, n, failure), FirstQueries(w.memory, k);
    ResumeIsValid(env, w.disk);
    ShapesNormal(env, t.dependencies);
    ReplayShapesNormal(env, q.replayEntries);
    assert Shapes(env, r);
    ValidChain(env, r);
    TranscriptTextNormal(env, t, now);
    assert FirstEntries(r, n, failure) == NormalMemory(t);
    FlaggedSurvives(env, t, now);
    assert TranscriptAt(env, v, n, failure, now);
    ReplayTextNormal(env, q);
    assert FirstQueries(r, k) == NormalMemory(q);
    assert ReplayAt(env, v, k);
    NormalPrefix(w.known.entries, w.memory.dependencies, n);
    NormalPrefix(w.known.queries, w.memory.replayEntries, k);
  }

  lemma FlaggedSurvives(env: Setup, m: Memory, now: nat)
    requires Writable(env, m, now) && Flagged(m)
    ensures Flagged(NormalMemory(m))
  {
    hide Complete, Chain, AllShaped, AllReplayShaped, EventHash, Normal;
    ChainSurvives(env, m.dependencies);
  }

  lemma ValidChain(env: Setup, m: Memory)
    requires ValidMemory(env, m)
    ensures Chain(env, m.dependencies)
  {
  }

  lemma NormalPrefix(known: seq<Json>, items: seq<Json>, n: nat)
    requires known <= NormalItems(items) && |known| <= n <= |items|
    ensures known <= NormalItems(items[..n]) <= NormalItems(items)
  {
    hide Normal, NormalItems;
    NormalTake(items, n);
    PrefixOfPrefix(known, NormalItems(items), n);
  }

  lemma NormalTake(items: seq<Json>, n: nat)
    requires n <= |items|
    ensures NormalItems(items[..n]) == NormalItems(items)[..n]
  {
    hide Normal, NormalItems;
  }

  lemma PrefixOfPrefix<T>(a: seq<T>, b: seq<T>, n: nat)
    requires a <= b && |a| <= n <= |b|
    ensures a <= b[..n] <= b
  {
  }

  lemma StartKeeps(env: Setup, now: nat)
    requires GoodSetup(env) && GoodTime(now)
    ensures Inv(env, Start(env, now)) && InPlace(Start(env, now))
  {
    hide Transcript, ReplayMaterial, BeginFlush;
    var w := World(EMPTY, Files([], []), Idle, NOTHING, {}, 0, Origin(0, 0));
    assert Inv(env, w);
    BeginFlushKeeps(env, w, now);
  }

  /** Whatever lands, every run keeps the invariant but for what callers know; a run in order keeps that, too. */
  lemma {:induction false} RunKeeps(env: Setup, now: nat, actions: seq<Action>)
    requires RunOk(env, now, actions)
    ensures Inv(env, Forgot(Run(env, now, actions)))
    ensures RunInOrder(env, now, actions) ==> Inv(env, Run(env, now, actions)) && InPlace(Run(env, now, actions))
  {
    hide Inv, Resume, ActionOk, InPlace, Act;
    if actions == [] {
      StartKeeps(env, now);
      ForgetKeeps(env, Start(env, now), Start(env, now).flight);
    } else {
      var last := |actions| - 1;
      RunKeeps(env, now, actions[..last]);
      var w := Run(env, now, actions[..last]);
      assert Run(env, now, actions) == Act(env, w, actions[last]);
      ForgottenStepKeeps(env, w, actions[last]);
      if RunInOrder(env, now, actions) {
        StepKeeps(env, w, actions[last]);
      }
    }
  }

  lemma StepKeeps(env: Setup, w: World, a: Action)
    requires GoodSetup(env) && Inv(env, w) && InPlace(w) && ActionOk(env, a) && InOrder(w, a)
    ensures Inv(env, Act(env, w, a)) && InPlace(Act(env, w, a))
  {
    hide Inv, Resume, ActionOk;
    match a
    case Acknowledge => AcknowledgeKeeps(env, w);
    case Land(l) =>
      if l in w.late {
        LandKeeps(env, w, l);
        LandStaysInPlace(env, w, l);
      }
    case _ => OtherStepKeeps(env, w, a);
  }

  /** The steps that need no order. */
  lemma OtherStepKeeps(env: Setup, w: World, a: Action)
    requires GoodSetup(env) && Inv(env, w) && ActionOk(env, a) && !a.Acknowledge? && !a.Land?
    ensures Inv(env, Act(env, w, a)) && (InPlace(w) ==> InPlace(Act(env, w, a)))
  {
    hide Inv, Resume, ActionOk;
    match a
    case Call(_, _, _, _) => CallKeeps(env, w, a);
    case Fail(_) => CallKeeps(env, w, a);
    case RenameTranscript => RenameKeeps(env, w, a);
    case RenameReplay => RenameKeeps(env, w, a);
    case FailTranscript => WriteFailKeeps(env, w, a);
    case FailReplay => WriteFailKeeps(env, w, a);
    case CrashAndResume =>
      if !w.flight.Stopped? {
        if Resume(env, w.disk).Success? {
          ResumeKeeps(env, w);
        } else {
          StopKeeps(env, w);
        }
      }
  }

  lemma ForgottenStepKeeps(env: Setup, w: World, a: Action)
    requires GoodSetup(env) && Inv(env, Forgot(w)) && ActionOk(env, a)
    ensures Inv(env, Forgot(Act(env, w, a)))
  {
    hide Inv, Resume, ActionOk, BeginFlush, Append;
    var x := Forgot(w);
    if a.Acknowledge? {
      ForgetKeeps(env, x, x.flight);
      ForgetKeeps(env, x, Idle);
    } else if a.Land? {
      if a.write in w.late {
        LandKeeps(env, x, a.write);
      }
    } else {
      OtherStepKeeps(env, x, a);
      ForgottenAct(env, w, a);
    }
  }

  /** No step but the acknowledgment looks at what callers know. */
  lemma ForgottenAct(env: Setup, w: World, a: Action)
    requires !a.Acknowledge?
    ensures Act(env, Forgot(w), a) == Forgot(Act(env, w, a))
  {
    hide Resume, Append, FlushTexts;
  }

  lemma StopKeeps(env: Setup, w: World)
    requires Inv(env, w)
    ensures Inv(env, w.(flight := Stopped, late := {}))
  {
    hide ValidMemory, Shapes, TranscriptOk, ReplayOk, KnownOk, LateOk;
    var v := w.(flight := Stopped, late := {});
    DiskKeeps(env, w, v);
    KnownKeeps(w, v);
  }

  // ---- main results ----

  /** Every reachable recorder holds a valid chain of at most 2000 entries, is flagged as failed when a
      result is incomplete or truncated, and has a text search behind each replay entry. */
  lemma ReachableIsValid(env: Setup, now: nat, actions: seq<Action>)
    requires RunOk(env, now, actions)
    ensures ValidMemory(env, Run(env, now, actions).memory)
  {
    hide ValidMemory, KnownOk, TranscriptOk, ReplayOk, Shapes, FlightAt, LatesOk, Run;
    RunKeeps(env, now, actions);
  }

  /** What a memory keeps of what callers know. */
  predicate KeepsKnown(known: Known, m: Memory) {
    known.entries <= m.dependencies && known.queries <= m.replayEntries && (known.failure ==> m.hadFailure)
  }

  /** It restores a front of what was recorded. */
  predicate IsFront(r: Memory, m: Memory) {
    && r.dependencies <= NormalItems(m.dependencies) && r.replayEntries <= NormalItems(m.replayEntries)
    && (r.hadFailure ==> m.hadFailure)
  }

  /** Stop any run at any point, between the renames of a flush included, and after any writes have failed: resuming
      either throws or restores a prefix of what was appended; and as long as no write of a failed flush lands over the
      file of a newer one, every acknowledged entry, query and failure flag is in it. */
  lemma CrashSafety(env: Setup, now: nat, actions: seq<Action>)
    requires RunOk(env, now, actions)
    ensures var w := Run(env, now, actions); Resume(env, w.disk).Success? ==>
      var r := Resume(env, w.disk).value;
      && ValidMemory(env, r) && IsFront(r, w.memory)
      && (RunInOrder(env, now, actions) ==> KeepsKnown(w.known, r))
  {
    hide ValidMemory, KeepsKnown, IsFront, Run, Resume, Inv;
    RunKeeps(env, now, actions);
    var w := Run(env, now, actions);
    if Resume(env, w.disk).Success? {
      ResumeIsValid(env, w.disk);
      ResumedIsFront(env, Forgot(w));
      if RunInOrder(env, now, actions) {
        ResumedIsFront(env, w);
      }
    }
  }

  lemma ResumedIsFront(env: Setup, w: World)
    requires GoodSetup(env) && Inv(env, w) && Resume(env, w.disk).Success?
    ensures IsFront(Resume(env, w.disk).value, w.memory) && KeepsKnown(w.known, Resume(env, w.disk).value)
  {
    hide ValidMemory, Shapes, Normal, Resume, FilesOf, Transcript, ReplayMaterial, Printable, FlightAt, LatesOk;
    var n, failure, _, k := RestoredFrom(env, w);
    NormalPrefix(w.known.entries, w.memory.dependencies, n);
    NormalPrefix(w.known.queries, w.memory.replayEntries, k);
  }

  /** Two different authenticated texts with one hash. */
  ghost predicate Collision(env: Setup, x: Text, y: Text) {
    x != y && env.mac(x) == env.mac(y)
  }

  /** What a caller can check before recording: nothing undefined in the operation or the result. */
  predicate Storable(e: Json) {
    Defined(Get(e, OPERATION)) && Defined(Get(e, RESULT))
  }

  lemma StorableIffDefined(env: Setup, e: Json, sequence: nat, previous: Json)
    requires EntryOk(env, e, sequence, previous) && previous.Str?
    ensures Storable(e) <==> Defined(Event(env, e))
  {
    hide Get, U, Wire, Print;
    var v := Event(env, e);
    assert v.fields[5] in v.fields && v.fields[6] in v.fields;
    if Storable(e) {
      forall f | f in v.fields ensures Defined(f.value) {
        var i :| 0 <= i < 7 && v.fields[i] == f;
      }
    }
  }

  lemma StorableSurvives(env: Setup, e: Json, sequence: nat, previous: Json)
    requires GoodSetup(env) && Shaped(env, e) && Printable(e)
    requires EntryOk(env, e, sequence, previous) && previous.Str?
    ensures Storable(e) ==> EventHash(env, Normal(e)) == EventHash(env, e)
    ensures EventHash(env, Normal(e)) == EventHash(env, e) ==> Storable(e) || HashCollides(env, e)
  {
    hide Event, Wire, Normal, Defined, Shaped, Printable, Get;
    HashSurvives(env, e);
    StorableIffDefined(env, e, sequence, previous);
  }

  /** The event of an entry, before and after the file, is two texts with one hash. */
  ghost predicate HashCollides(env: Setup, e: Json) {
    Collision(env, Wire(env.codec, Event(env, e)), Wire(env.codec, Event(env, Normal(e))))
  }

  /** When all is acknowledged and the files are within bounds, resuming restores the recorder exactly
      (keys sorted) if no recorded operation or result holds undefined. If one does, resuming throws,
      unless the hash of its event collides. */
  lemma ExactRestore(env: Setup, now: nat, actions: seq<Action>)
    requires RunOk(env, now, actions) && RunInOrder(env, now, actions)
    requires var w := Run(env, now, actions);
      w.known == AllKnown(w.memory) && SizeOk(w.disk.transcript) && SizeOk(w.disk.replay)
    ensures var w := Run(env, now, actions); var deps := w.memory.dependencies;
      && ((forall i :: 0 <= i < |deps| ==> Storable(deps[i])) ==>
          Resume(env, w.disk) == Success(NormalMemory(w.memory)))
      && (Resume(env, w.disk).Success? ==>
          forall i :: 0 <= i < |deps| ==> Storable(deps[i]) || HashCollides(env, deps[i]))
  {
    hide Run, Inv, Resume, Storable, HashCollides;
    RunKeeps(env, now, actions);
    ExactRestoreAt(env, Run(env, now, actions));
  }

  lemma ExactRestoreAt(env: Setup, w: World)
    requires GoodSetup(env) && Inv(env, w)
    requires w.known == AllKnown(w.memory) && SizeOk(w.disk.transcript) && SizeOk(w.disk.replay)
    ensures var deps := w.memory.dependencies;
      && ((forall i :: 0 <= i < |deps| ==> Storable(deps[i])) ==>
          Resume(env, w.disk) == Success(NormalMemory(w.memory)))
      && (Resume(env, w.disk).Success? ==>
          forall i :: 0 <= i < |deps| ==> Storable(deps[i]) || HashCollides(env, deps[i]))
  {
    hide Storable, Normal, Shaped, Printable, Resume, Transcript, ReplayMaterial, EventHash, HashCollides,
      Complete, EntryOk, ReplayEntryOk, ReplayShaped, HashBefore, FlightAt;
    var m, deps := w.memory, w.memory.dependencies;
    var n, failure, now :| TranscriptAt(env, w, n, failure, now);
    var k :| ReplayAt(env, w, k);
    var t, q := FirstEntries(m, n, failure), FirstQueries(m, k);
    assert t.dependencies == deps && q.replayEntries == m.replayEntries;
    FirstEntriesWritable(env, m, n, failure, now);
    FirstQueriesWritable(env, m, k, now);
    ResumeFiles(env, t, q, now, w.disk);
    ChainSurvives(env, deps);
    HashesSurvive(env, deps, |deps|);
    forall i | 0 <= i < |deps|
      ensures Storable(deps[i]) ==> EventHash(env, Normal(deps[i])) == EventHash(env, deps[i])
      ensures EventHash(env, Normal(deps[i])) == EventHash(env, deps[i]) ==>
        Storable(deps[i]) || HashCollides(env, deps[i])
    {
      ChainHashesAreTexts(env, deps, i);
      StorableSurvives(env, deps[i], i + 1, HashBefore(env, deps, i));
    }
    forall i | 0 <= i < |m.replayEntries|
      ensures ReplayEntryOk(env, NormalItems(m.replayEntries)[i], NormalItems(deps))
    {
      ReplayEntrySurvives(env, m.replayEntries[i], deps);
    }
  }

  /** A call that is left to finish is acknowledged, and then callers know the whole memory. */
  lemma FinishedCallIsKnown(env: Setup, w: World, a: Action)
    requires w.flight.Idle? && Act(env, w, a).flight.InFlight?
    ensures var v := Act(env, Act(env, Act(env, Act(env, w, a), RenameReplay), RenameTranscript), Acknowledge);
      && v.flight.Idle? && v.memory == Act(env, w, a).memory && v.known == AllKnown(v.memory)
      && v.disk == Act(env, w, a).flight.files
  {
    hide Append, BeginFlush, Resume;
  }
}
