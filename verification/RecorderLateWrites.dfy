/** A write that a failed flush left behind, and what is lost when it lands over the file of a newer flush. */
module RecorderLateWrites {
  import opened Options
  import opened Texts
  import opened Json
  import opened JsonLaws
  import opened Recorder
  import opened RecorderLaws
  import opened RecorderCrash
  import opened RecorderSafety

  // ---- exactly when a late write does harm ----

  /** The write holds at least what callers know of its file. */
  ghost predicate Covers(env: Setup, w: World, l: Write) {
    if l.transcript then
      exists n, failure, now ::
        TranscriptIs(env, w.memory, l.text, n, failure, now) && CoversEntries(w.known, n, failure)
    else exists n :: ReplayIs(env, w.memory, l.text, n) && |w.known.queries| <= n
  }

  /** With a late transcript a resume has the entries of that transcript, and all known queries. */
  lemma TranscriptLands(env: Setup, w: World, l: Write, n: nat, failure: bool, now: nat)
    requires GoodSetup(env) && Inv(env, w) && l.transcript && TranscriptIs(env, w.memory, l.text, n, failure, now)
    requires Resume(env, Landed(w, l).disk).Success?
    ensures var r := Resume(env, Landed(w, l).disk).value;
      && r.dependencies == NormalItems(w.memory.dependencies[..n]) && r.hadFailure == failure
      && w.known.queries <= r.replayEntries
  {
    hide ValidMemory, Shapes, NormalItems, Resume, LatesOk, FlightAt, KnownOk, TranscriptOk, Transcript,
      ReplayMaterial, Printable, TranscriptText, ReplayText;
    SizeOkWhenResumed(env, Landed(w, l).disk);
    var k :| ReplayAt(env, w, k);
    KnownQueriesIn(w, k);
    TwoFronts(env, w, Landed(w, l).disk, n, failure, now, k);
  }

  lemma ReplayLands(env: Setup, w: World, l: Write, k: nat)
    requires GoodSetup(env) && Inv(env, w) && !l.transcript && ReplayIs(env, w.memory, l.text, k)
    requires Resume(env, Landed(w, l).disk).Success?
    ensures var r := Resume(env, Landed(w, l).disk).value;
      && r.replayEntries == NormalItems(w.memory.replayEntries[..k])
      && w.known.entries <= r.dependencies && (w.known.failure ==> r.hadFailure)
  {
    hide ValidMemory, Shapes, NormalItems, Resume, LatesOk, FlightAt, KnownOk, ReplayOk, Transcript,
      ReplayMaterial, Printable, TranscriptText, ReplayText;
    SizeOkWhenResumed(env, Landed(w, l).disk);
    var n, failure, now :| TranscriptAt(env, w, n, failure, now);
    KnownEntriesIn(w, n);
    TwoFronts(env, w, Landed(w, l).disk, n, failure, now, k);
  }

  lemma TwoFronts(env: Setup, w: World, files: Files, n: nat, failure: bool, now: nat, k: nat)
    requires GoodSetup(env) && Inv(env, w) && Resume(env, files).Success?
    requires TranscriptIs(env, w.memory, files.transcript, n, failure, now)
    requires ReplayIs(env, w.memory, files.replay, k)
    ensures Resume(env, files).value
         == Memory(NormalItems(w.memory.dependencies[..n]), NormalItems(w.memory.replayEntries[..k]), failure)
  {
    hide ValidMemory, Shapes, Normal, Resume, Transcript, ReplayMaterial, Printable, TranscriptText, ReplayText,
      KnownOk, TranscriptOk, ReplayOk, LatesOk, FlightAt, Writable;
    FirstEntriesWritable(env, w.memory, n, failure, now);
    FirstQueriesWritable(env, w.memory, k, now);
    ResumeFiles(env, FirstEntries(w.memory, n, failure), FirstQueries(w.memory, k), now, files);
  }

  lemma KnownEntriesIn(w: World, n: nat)
    requires KnownOk(w) && |w.known.entries| <= n <= |w.memory.dependencies|
    ensures w.known.entries <= NormalItems(w.memory.dependencies[..n])
  {
    NormalPrefix(w.known.entries, w.memory.dependencies, n);
  }

  lemma KnownQueriesIn(w: World, k: nat)
    requires KnownOk(w) && |w.known.queries| <= k <= |w.memory.replayEntries|
    ensures w.known.queries <= NormalItems(w.memory.replayEntries[..k])
  {
    NormalPrefix(w.known.queries, w.memory.replayEntries, k);
  }

  /** After any run in order, let any write that was left behind land: what a resume then restores has everything that
      was acknowledged if and only if the write holds at least what callers know of its file. */
  lemma LandingIff(env: Setup, now: nat, actions: seq<Action>, l: Write)
    requires RunOk(env, now, actions) && RunInOrder(env, now, actions) && l in Run(env, now, actions).late
    requires Resume(env, Landed(Run(env, now, actions), l).disk).Success?
    ensures var w := Run(env, now, actions);
      KeepsKnown(w.known, Resume(env, Landed(w, l).disk).value) <==> Covers(env, w, l)
    ensures InOrder(Run(env, now, actions), Land(l)) ==> Covers(env, Run(env, now, actions), l)
  {
    hide Run, Resume, Inv;
    RunKeeps(env, now, actions);
    LandingIffAt(env, Run(env, now, actions), l);
  }

  lemma LandingIffAt(env: Setup, w: World, l: Write)
    requires GoodSetup(env) && Inv(env, w) && l in w.late && Resume(env, Landed(w, l).disk).Success?
    ensures KeepsKnown(w.known, Resume(env, Landed(w, l).disk).value) <==> Covers(env, w, l)
    ensures InOrder(w, Land(l)) ==> Covers(env, w, l)
  {
    hide ValidMemory, Shapes, NormalItems, Resume, TranscriptIs, ReplayIs, TranscriptOk, ReplayOk, FlightAt, Landed,
      KnownOk;
    assert LateOk(env, w, l);
    if l.transcript {
      var n, failure, now :| LateTranscriptAt(env, w, l, n, failure, now);
      TranscriptLands(env, w, l, n, failure, now);
      EntriesPrefixIff(env, w, l.text, n, failure, now);
      if k, flag, at :| TranscriptIs(env, w.memory, l.text, k, flag, at) && CoversEntries(w.known, k, flag) {
        TranscriptLands(env, w, l, k, flag, at);
        EntriesPrefixIff(env, w, l.text, k, flag, at);
      }
    } else {
      var n :| LateReplayAt(env, w, l, n);
      ReplayLands(env, w, l, n);
      QueriesPrefixIff(env, w, l.text, n);
      if k :| ReplayIs(env, w.memory, l.text, k) && |w.known.queries| <= k {
        ReplayLands(env, w, l, k);
        QueriesPrefixIff(env, w, l.text, k);
      }
    }
  }

  lemma EntriesPrefixIff(env: Setup, w: World, text: Text, n: nat, failure: bool, now: nat)
    requires KnownOk(w) && TranscriptIs(env, w.memory, text, n, failure, now)
    ensures n <= |w.memory.dependencies|
    ensures w.known.entries <= NormalItems(w.memory.dependencies[..n]) <==> |w.known.entries| <= n
  {
    hide Normal, Transcript, Printable, TranscriptText;
    if |w.known.entries| <= n {
      KnownEntriesIn(w, n);
    }
  }

  lemma QueriesPrefixIff(env: Setup, w: World, text: Text, k: nat)
    requires KnownOk(w) && ReplayIs(env, w.memory, text, k)
    ensures k <= |w.memory.replayEntries|
    ensures w.known.queries <= NormalItems(w.memory.replayEntries[..k]) <==> |w.known.queries| <= k
  {
    hide Normal, ReplayMaterial, Printable, ReplayText;
    if |w.known.queries| <= k {
      KnownQueriesIn(w, k);
    }
  }

  // ---- an acknowledged append that is lost ----

  /** The transcript of the first call's flush, when the write of the replay material fails. */
  function LeftBehind(env: Setup, w: World, first: Action): Write
    requires Act(env, w, first).flight.InFlight?
  {
    Write(true, Act(env, w, first).flight.files.transcript, Act(env, w, first).flushes)
  }

  /** The first call fails on its replay material, the second one is acknowledged, and then the transcript of the first
      one lands. */
  function LosingSteps(env: Setup, w: World, first: Action, second: Action): seq<Action>
    requires Act(env, w, first).flight.InFlight?
  {
    [first, FailReplay, second, RenameReplay, RenameTranscript, Acknowledge, Land(LeftBehind(env, w, first))]
  }

  function Acts(env: Setup, w: World, actions: seq<Action>): World
    decreases |actions|
  {
    if actions == [] then w else Acts(env, Act(env, w, actions[0]), actions[1..])
  }

  lemma RunMore(env: Setup, now: nat, actions: seq<Action>, a: Action)
    ensures Run(env, now, actions + [a]) == Act(env, Run(env, now, actions), a)
  {
    hide Act;
    assert (actions + [a])[..|actions|] == actions;
  }

  lemma {:induction false} RunThenActs(env: Setup, now: nat, actions: seq<Action>, more: seq<Action>)
    ensures Run(env, now, actions + more) == Acts(env, Run(env, now, actions), more)
    decreases |more|
  {
    hide Act, Run;
    if more == [] {
      assert actions + more == actions;
    } else {
      RunMore(env, now, actions, more[0]);
      RunThenActs(env, now, actions + [more[0]], more[1..]);
      assert actions + [more[0]] + more[1..] == actions + more;
    }
  }

  /** The world after the losing steps. */
  lemma LosingWorld(env: Setup, w: World, first: Action, second: Action)
    requires w.flight.Idle? && Act(env, w, first).flight.InFlight? && first.Call? && second.Call?
    requires Act(env, Act(env, Act(env, w, first), FailReplay), second).flight.InFlight?
    ensures var u := Act(env, w, first);
      var x := Act(env, Act(env, u, FailReplay), second);
      var v := Acts(env, w, LosingSteps(env, w, first, second));
      && v.memory == x.memory && v.known == AllKnown(x.memory)
      && v.disk == Files(u.flight.files.transcript, x.flight.files.replay)
  {
    hide Append, FlushTexts, Resume;
    var l := LeftBehind(env, w, first);
    var u := Act(env, w, first);
    var f := Act(env, u, FailReplay);
    assert l in f.late && f.flight.Idle?;
    var x := Act(env, f, second);
    assert x.late == f.late;
    var y := Act(env, Act(env, Act(env, x, RenameReplay), RenameTranscript), Acknowledge);
    assert l in y.late && y.memory == x.memory && y.known == AllKnown(x.memory) && y.disk == x.flight.files;
    var steps := LosingSteps(env, w, first, second);
    ActsOfSeven(env, w, steps);
  }

  lemma NextAct(env: Setup, w: World, s: seq<Action>, k: nat)
    requires k < |s|
    ensures Acts(env, w, s[k..]) == Acts(env, Act(env, w, s[k]), s[k + 1..])
  {
    hide Act;
    assert s[k..][0] == s[k] && s[k..][1..] == s[k + 1..];
  }

  lemma ActsOfSeven(env: Setup, w: World, s: seq<Action>)
    requires |s| == 7
    ensures Acts(env, w, s)
         == Act(env, Act(env, Act(env, Act(env, Act(env, Act(env, Act(env, w, s[0]), s[1]), s[2]), s[3]), s[4]), s[5]),
                s[6])
  {
    hide Act, Acts;
    var a := Act(env, w, s[0]);
    var b := Act(env, a, s[1]);
    var c := Act(env, b, s[2]);
    var d := Act(env, c, s[3]);
    var e := Act(env, d, s[4]);
    var f := Act(env, e, s[5]);
    NextAct(env, w, s, 0);
    NextAct(env, a, s, 1);
    NextAct(env, b, s, 2);
    NextAct(env, c, s, 3);
    NextAct(env, d, s, 4);
    NextAct(env, e, s, 5);
    NextAct(env, f, s, 6);
    assert s[0..] == s;
    NoActs(env, Act(env, f, s[6]), s[7..]);
  }

  lemma NoActs(env: Setup, w: World, s: seq<Action>)
    requires s == []
    ensures Acts(env, w, s) == w
  {
  }

  /** A memory that is being flushed prints. */
  lemma FlightWritable(env: Setup, w: World, now: nat, at: nat)
    requires GoodSetup(env) && Inv(env, w) && w.flight.InFlight? && FlightAt(env, w, now) && GoodTime(at)
    ensures Writable(env, w.memory, at)
  {
    hide Transcript, ReplayMaterial, Printable, Shaped, ReplayShaped, Chain, Complete, ReplayEntryOk, KnownOk,
      TranscriptOk, ReplayOk, LatesOk;
    PrintableEntries(env, w.memory, now);
  }

  lemma StorableHash(env: Setup, deps: seq<Json>, i: nat)
    requires GoodSetup(env) && Chain(env, deps) && AllShaped(env, deps) && i < |deps| && Storable(deps[i])
    ensures EventHash(env, Normal(deps[i])) == EventHash(env, deps[i])
  {
    hide Storable, Normal, Shaped, Printable, EventHash, EntryOk, HashBefore, HashCollides;
    ChainHashesAreTexts(env, deps, i);
    StorableSurvives(env, deps[i], i + 1, HashBefore(env, deps, i));
  }

  /** A chain of storable entries is accepted when it is read back. */
  lemma StorableChain(env: Setup, deps: seq<Json>)
    requires GoodSetup(env) && Chain(env, deps) && AllShaped(env, deps)
    requires forall i :: 0 <= i < |deps| ==> Storable(deps[i])
    ensures Chain(env, NormalItems(deps))
    ensures HashBefore(env, NormalItems(deps), |deps|) == HashBefore(env, deps, |deps|)
    ensures forall i :: 0 <= i < |deps| ==> Complete(NormalItems(deps)[i]) == Complete(deps[i])
  {
    hide Storable, Normal, AllShaped, EventHash, Complete, Chain, HashBefore, NormalItems;
    forall i | 0 <= i < |deps| ensures EventHash(env, Normal(deps[i])) == EventHash(env, deps[i]) {
      StorableHash(env, deps, i);
    }
    ChainSurvives(env, deps);
    HashesSurvive(env, deps, |deps|);
  }

  /** The transcript of one memory and the replay material of a later one, which has no more queries, resume as the
      former. */
  lemma OlderResumes(env: Setup, t: Memory, r: Memory, now: nat, files: Files)
    requires FilesOf(env, t, r, now, files) && SizeOk(files.transcript) && SizeOk(files.replay)
    requires ValidMemory(env, t) && r.replayEntries == t.replayEntries
    requires forall i :: 0 <= i < |t.dependencies| ==> Storable(t.dependencies[i])
    ensures Resume(env, files).Success? && Resume(env, files).value.dependencies == NormalItems(t.dependencies)
  {
    hide Storable, Normal, Shaped, Printable, Resume, Transcript, ReplayMaterial, Complete, EntryOk, ReplayEntryOk,
      ReplayShaped, HashBefore, SizeOk, TranscriptText, ReplayText;
    var deps := t.dependencies;
    StorableChain(env, deps);
    forall i | 0 <= i < |r.replayEntries|
      ensures ReplayEntryOk(env, NormalItems(r.replayEntries)[i], NormalItems(deps))
    {
      ReplayEntrySurvives(env, r.replayEntries[i], deps);
    }
    ResumeFiles(env, t, r, now, files);
  }

  /** The order of landings is needed: after any run, let a call fail on its replay material, let a further call be
      acknowledged, and then let the transcript of the first one land. If the entries up to the first call can be stored
      and the files are within bounds, they resume, without the entry that was acknowledged. */
  lemma LateWriteLoses(env: Setup, now: nat, actions: seq<Action>, first: Action, second: Action)
    requires RunOk(env, now, actions) && RunInOrder(env, now, actions) && ActionOk(env, first) && ActionOk(env, second)
    requires Run(env, now, actions).flight.Idle? && first.Call? && second.Call? && second.query.None?
    requires var u := Act(env, Run(env, now, actions), first);
      u.flight.InFlight? && SizeOk(u.flight.files.transcript)
      && (forall i :: 0 <= i < |u.memory.dependencies| ==> Storable(u.memory.dependencies[i]))
      && var x := Act(env, Act(env, u, FailReplay), second);
         x.flight.InFlight? && SizeOk(x.flight.files.replay) && |x.memory.dependencies| > |u.memory.dependencies|
    ensures var w := Run(env, now, actions);
      var z := Run(env, now, actions + LosingSteps(env, w, first, second));
      && z.known == AllKnown(z.memory) && Resume(env, z.disk).Success?
      && !(z.known.entries <= Resume(env, z.disk).value.dependencies)
  {
    hide Run, Act, Inv, Resume, InPlace, FlightAt, LosingSteps, SizeOk, Storable, Writable, ValidMemory, Normal;
    var w := Run(env, now, actions);
    RunKeeps(env, now, actions);
    var u := Act(env, w, first);
    var f := Act(env, u, FailReplay);
    var x := Act(env, f, second);
    StepKeeps(env, w, first);
    StepKeeps(env, u, FailReplay);
    StepKeeps(env, f, second);
    FailedKeepsMemory(env, u, second);
    LosingWorld(env, w, first, second);
    RunThenActs(env, now, actions, LosingSteps(env, w, first, second));
    var at := FlightTime(env, u);
    var later := FlightTime(env, x);
    FlightFiles(env, u, x, at, later);
    OlderResumes(env, u.memory, x.memory, at, Files(u.flight.files.transcript, x.flight.files.replay));
    assert |AllKnown(x.memory).entries| == |x.memory.dependencies|;
  }

  lemma FlightTime(env: Setup, w: World) returns (now: nat)
    requires Inv(env, w) && w.flight.InFlight?
    ensures FlightAt(env, w, now) && GoodTime(now) && ValidMemory(env, w.memory)
  {
    hide ValidMemory, Shapes, KnownOk, TranscriptOk, ReplayOk, LatesOk, Transcript, ReplayMaterial, Printable;
    now :| FlightAt(env, w, now);
  }

  lemma FailedKeepsMemory(env: Setup, u: World, second: Action)
    requires second.Call? && second.query.None?
    ensures Act(env, u, FailReplay).memory == u.memory
    ensures Act(env, Act(env, u, FailReplay), second).memory.replayEntries == u.memory.replayEntries
  {
    hide NewEntry, Recorded, Printable, Complete, FlushTexts, MAX_OPERATIONS;
  }

  lemma FlightFiles(env: Setup, u: World, x: World, at: nat, later: nat)
    requires GoodSetup(env) && Inv(env, u) && u.flight.InFlight? && FlightAt(env, u, at)
    requires Inv(env, x) && x.flight.InFlight? && FlightAt(env, x, later)
    ensures FilesOf(env, u.memory, x.memory, at, Files(u.flight.files.transcript, x.flight.files.replay))
  {
    hide Inv, Transcript, ReplayMaterial, Printable, TranscriptText, ReplayText, Writable;
    FlightWritable(env, u, at, at);
    FlightWritable(env, x, later, at);
  }
}
