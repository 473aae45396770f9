/** Exactly when the two state files of a run are refused, and the search that a crash between two renames cuts off. */
module RecorderThrows {
  import opened Options
  import opened Texts
  import opened Json
  import opened JsonLaws
  import opened CanonicalTheorems
  import opened Recorder
  import opened RecorderLaws
  import opened RecorderCrash
  import opened RecorderSafety
  import opened RecorderLateWrites

  // ---- a query and the entry behind it, before and after the file ----

  lemma NormalText(v: Json, t: Text)
    ensures Normal(v) == Str(t) <==> v == Str(t)
  {
  }

  lemma KindSurvives(c: NumberCodec, operation: Json)
    requires WellFormed(c, operation)
    ensures Get(Normal(operation), KIND) == Str(TEXT_SEARCH) <==> Get(operation, KIND) == Str(TEXT_SEARCH)
  {
    if operation.Obj? {
      LookupNormal(operation.fields, KIND);
      NormalText(Get(operation, KIND), TEXT_SEARCH);
    } else if operation.Undefined? {
      assert |KIND| == 4 && |UNDEFINED_KEY| == 10;
    }
  }

  lemma JustifiesIff(env: Setup, d: Json, r: Json, sequence: nat)
    requires Shaped(env, d) && Get(d, SEQUENCE) == Integer(sequence) && ReplayShaped(env, r) && ReplayEntryShape(r)
    ensures Justifies(env, Normal(d), Normal(r)) <==> Justifies(env, d, r)
  {
    hide Get, U, WellFormed, ReplayHandle;
    ReplayShapeSurvives(env, r);
    EntryGet(env, d, SEQUENCE);
    EntryGet(env, d, OPERATION_KEY);
    EntryGet(env, d, OPERATION);
    NormalText(Get(d, OPERATION_KEY), Get(r, OPERATION_KEY).s);
    KindSurvives(env.codec, Get(d, OPERATION));
  }

  ghost predicate HasReason(env: Setup, r: Json, deps: seq<Json>) {
    exists j :: 0 <= j < |deps| && Justifies(env, deps[j], r)
  }

  /** A query is accepted with a transcript exactly when an entry of it is its reason. */
  lemma QueryAcceptedIff(env: Setup, r: Json, deps: seq<Json>)
    requires AllShaped(env, deps) && Chain(env, deps) && ReplayShaped(env, r) && ReplayEntryShape(r)
    ensures ReplayEntryOk(env, Normal(r), NormalItems(deps)) <==> HasReason(env, r, deps)
  {
    hide Get, Normal, Justifies, Shaped, ReplayShaped, ReplayEntryShape, Chain, U;
    ReplayShapeSurvives(env, r);
    var ns := NormalItems(deps);
    forall j | 0 <= j < |deps| ensures Justifies(env, ns[j], Normal(r)) <==> Justifies(env, deps[j], r) {
      EntrySequence(env, deps, j);
      JustifiesIff(env, deps[j], r, j + 1);
    }
    if HasReason(env, r, deps) {
      var j :| 0 <= j < |deps| && Justifies(env, deps[j], r);
      assert Justifies(env, ns[j], Normal(r));
    }
  }

  // ---- any two files ----

  /** A transcript of this session, policy, binary, checkout and seed, whose chain holds and ends in the head it names,
      and which flags what is incomplete. */
  ghost predicate TranscriptAccepted(env: Setup, t: Json) {
    && Get(t, TRANSCRIPT_VERSION) == Integer(1) && Get(t, SESSION_ID) == Str(env.sessionId)
    && Get(t, GATEWAY_POLICY_VERSION) == Str(POLICY_VERSION)
    && Get(t, GATEWAY_BINARY_HASH) == Str(env.gatewayBinaryHash)
    && Get(t, CHECKOUT_TREE_OID) == Str(env.checkoutTreeOid)
    && Get(t, EVENT_CHAIN_SEED_HASH) == Str(env.eventChainSeedHash)
    && (exists n: nat :: GoodTime(n) && Get(t, UPDATED_AT_MS) == Integer(n))
    && Get(t, HAD_FAILURE).Bool? && Get(t, DEPENDENCIES).Arr?
    && var deps := Get(t, DEPENDENCIES).items;
       && |deps| <= MAX_OPERATIONS && Chain(env, deps)
       && Get(t, AUTHENTICATED_CHAIN_HASH) == HashBefore(env, deps, |deps|)
       && Flagged(Memory(deps, [], Get(t, HAD_FAILURE).b))
  }

  /** Replay material of this session, each of whose queries has its entry. */
  ghost predicate ReplayAccepted(env: Setup, r: Json, deps: seq<Json>) {
    && Get(r, REPLAY_MATERIAL_VERSION) == Integer(1) && Get(r, SESSION_ID) == Str(env.sessionId)
    && Get(r, ENTRIES).Arr?
    && var entries := Get(r, ENTRIES).items;
       && |entries| <= |deps|
       && forall i :: 0 <= i < |entries| ==> ReplayEntryShape(entries[i]) && HasReason(env, entries[i], deps)
  }

  lemma TimeIff(v: Json)
    ensures (v.Num? && v.n.Finite? && SafeInteger(v.n.value) && v.n.value >= 0.0)
       <==> exists n: nat :: GoodTime(n) && v == Integer(n)
  {
    if v.Num? && v.n.Finite? && SafeInteger(v.n.value) && v.n.value >= 0.0 {
      var n := v.n.value.Floor;
      assert GoodTime(n) && v == Integer(n);
    }
    if n: nat :| GoodTime(n) && v == Integer(n) {
      assert (n as real).Floor == n;
    }
  }

  /** Whatever two files hold: resuming succeeds if and only if both are within bounds and canonical, the one is a
      transcript of this recorder's session, and the other replay material that belongs to it; and what is restored is
      what they hold. */
  lemma ResumeIff(env: Setup, files: Files)
    ensures var t, r := ParseCanonicalState(env.codec, files.transcript), ParseCanonicalState(env.codec, files.replay);
      && (Resume(env, files).Success? <==>
            && SizeOk(files.transcript) && SizeOk(files.replay) && t.Success? && r.Success?
            && TranscriptAccepted(env, t.value) && ReplayAccepted(env, r.value, Get(t.value, DEPENDENCIES).items))
      && (Resume(env, files).Success? ==>
            Resume(env, files).value
            == Memory(Get(t.value, DEPENDENCIES).items, Get(r.value, ENTRIES).items, Get(t.value, HAD_FAILURE).b))
  {
    hide Get, U, SizeOk, ParseCanonicalState, Chain, Complete, Justifies, ReplayEntryShape, HashBefore;
    var t, r := ParseCanonicalState(env.codec, files.transcript), ParseCanonicalState(env.codec, files.replay);
    if t.Success? && r.Success? {
      TimeIff(Get(t.value, UPDATED_AT_MS));
      if Get(r.value, ENTRIES).Arr? && Get(t.value, DEPENDENCIES).Arr? {
        RestoreEntriesAll(env, Get(r.value, ENTRIES).items, Get(t.value, DEPENDENCIES).items);
      }
    }
  }

  /** Why a transcript is refused: first what it is of, then its chain, then its head and its flag. */
  lemma TranscriptFault(env: Setup, t: Json)
    ensures var r := RestoreTranscript(env, t); var deps := Get(t, DEPENDENCIES);
      && (r.Success? <==> TranscriptAccepted(env, t))
      && (r == Throw("transcript_identity_invalid") <==> !TranscriptIdentityOk(env, t))
      && (r == Throw("transcript_chain_invalid") <==> TranscriptIdentityOk(env, t) && !Chain(env, deps.items))
      && (r == Throw("transcript_state_invalid") <==>
            && TranscriptIdentityOk(env, t) && Chain(env, deps.items)
            && !(Get(t, AUTHENTICATED_CHAIN_HASH) == HashBefore(env, deps.items, |deps.items|)
                 && Flagged(Memory(deps.items, [], Get(t, HAD_FAILURE).b))))
  {
    hide Get, U, Chain, Complete, HashBefore;
    TimeIff(Get(t, UPDATED_AT_MS));
  }

  /** Entry i is the first at fault, by its form or for want of a reason. */
  predicate FirstFault(env: Setup, entries: seq<Json>, deps: seq<Json>, i: nat, fault: string) {
    && i < |entries| && (forall j | 0 <= j < i :: ReplayEntryOk(env, entries[j], deps))
    && !ReplayEntryOk(env, entries[i], deps)
    && fault == if ReplayEntryShape(entries[i]) then "replay_chain_invalid" else "replay_entry_invalid"
  }

  /** Why the entries of a replay file are refused: the first one at fault says it. */
  lemma {:induction false} EntriesFault(env: Setup, entries: seq<Json>, deps: seq<Json>)
    ensures var r := RestoreEntries(env, entries, deps);
      r.Throw? ==> exists i :: FirstFault(env, entries, deps, i, r.reason)
  {
    hide ReplayEntryOk, ReplayEntryShape;
    if entries != [] {
      var rest := entries[1..];
      ShapeFirst(env, entries[0], deps);
      EntriesFault(env, rest, deps);
      if ReplayFault(env, entries[0], deps).None? {
        var r := RestoreEntries(env, rest, deps);
        if r.Throw? {
          var i: nat :| FirstFault(env, rest, deps, i, r.reason);
          assert entries[i + 1] == rest[i];
          forall j | 0 <= j < i + 1 ensures ReplayEntryOk(env, entries[j], deps) {
            assert j > 0 ==> entries[j] == rest[j - 1];
          }
          assert FirstFault(env, entries, deps, i + 1, r.reason);
        }
      } else {
        assert FirstFault(env, entries, deps, 0, RestoreEntries(env, entries, deps).reason);
      }
    }
  }

  lemma ShapeFirst(env: Setup, entry: Json, deps: seq<Json>)
    ensures ReplayEntryOk(env, entry, deps) ==> ReplayEntryShape(entry)
  {
  }

  // ---- when the files are refused ----

  /** The first `n` entries and the first `k` queries can be restored: every event hash survives the file, and each
      query has its reason among the entries. */
  ghost predicate Restorable(env: Setup, m: Memory, n: nat, k: nat) {
    && k <= n <= |m.dependencies| && k <= |m.replayEntries|
    && (forall i :: 0 <= i < n ==> EventHash(env, Normal(m.dependencies[i])) == EventHash(env, m.dependencies[i]))
    && (forall i :: 0 <= i < k ==> HasReason(env, m.replayEntries[i], m.dependencies[..n]))
  }

  lemma TextsFit(env: Setup, m: Memory, files: Files, n: nat, failure: bool, at: nat, k: nat)
    requires TranscriptIs(env, m, files.transcript, n, failure, at) && ReplayIs(env, m, files.replay, k)
    ensures n <= |m.dependencies| && k <= |m.replayEntries| && GoodTime(at) && Flagged(FirstEntries(m, n, failure))
    ensures Printable(Transcript(env, FirstEntries(m, n, failure), at))
  {
  }

  lemma ThrowsAt(env: Setup, m: Memory, files: Files, n: nat, failure: bool, at: nat, k: nat)
    requires GoodSetup(env) && ValidMemory(env, m) && Shapes(env, m)
    requires TranscriptIs(env, m, files.transcript, n, failure, at) && ReplayIs(env, m, files.replay, k)
    ensures Resume(env, files).Success? <==>
      SizeOk(files.transcript) && SizeOk(files.replay) && Restorable(env, m, n, k)
  {
    hide Resume, Transcript, ReplayMaterial, Printable, TranscriptText, ReplayText, Shaped, ReplayShaped, Normal,
      EventHash, Complete, EntryOk, ReplayEntryOk, SizeOk, HashBefore, HasReason;
    TextsFit(env, m, files, n, failure, at, k);
    var t, q := FirstEntries(m, n, failure), FirstQueries(m, k);
    FirstEntriesWritable(env, m, n, failure, at);
    FirstQueriesWritable(env, m, k, at);
    ResumeFiles(env, t, q, at, files);
    ChainSurvives(env, t.dependencies);
    if Chain(env, NormalItems(t.dependencies)) {
      HashesSurvive(env, t.dependencies, n);
    }
    FlaggedSurvives(env, t, at);
    forall i | 0 <= i < k
      ensures ReplayEntryOk(env, NormalItems(q.replayEntries)[i], NormalItems(t.dependencies))
         <==> HasReason(env, m.replayEntries[i], t.dependencies)
    {
      QueryAcceptedAt(env, m, t.dependencies, i);
    }
  }

  lemma QueryAcceptedAt(env: Setup, m: Memory, deps: seq<Json>, i: nat)
    requires ValidMemory(env, m) && Shapes(env, m) && i < |m.replayEntries| && AllShaped(env, deps) && Chain(env, deps)
    ensures ReplayEntryOk(env, Normal(m.replayEntries[i]), NormalItems(deps))
       <==> HasReason(env, m.replayEntries[i], deps)
  {
    hide Chain, AllShaped, Normal, Justifies, ReplayEntryShape, ReplayShaped, Shaped, Complete, HasReason;
    assert ReplayEntryOk(env, m.replayEntries[i], m.dependencies);
    QueryAcceptedIff(env, m.replayEntries[i], deps);
  }

  /** The files are those of the first `n` entries and the first `k` queries. */
  ghost predicate FilesAre(env: Setup, m: Memory, files: Files, n: nat, k: nat) {
    && (exists failure, at :: TranscriptIs(env, m, files.transcript, n, failure, at))
    && ReplayIs(env, m, files.replay, k)
  }

  /** Stop any run at any point. The files on disk are those of the first entries and queries that were recorded, unless
      one of them is still empty; and resuming succeeds if and only if both are within bounds, every event hash in the
      transcript survives the file, and every query in the replay material has its entry in the transcript. */
  lemma ResumeThrowsIff(env: Setup, now: nat, actions: seq<Action>)
    requires RunOk(env, now, actions)
    ensures var w := Run(env, now, actions);
      w.disk.transcript == [] || w.disk.replay == [] || exists n, k :: FilesAre(env, w.memory, w.disk, n, k)
    ensures var w := Run(env, now, actions);
      w.disk.transcript == [] || w.disk.replay == [] ==> Resume(env, w.disk).Throw?
    ensures var w := Run(env, now, actions);
      forall n, k | FilesAre(env, w.memory, w.disk, n, k) ::
        Resume(env, w.disk).Success? <==>
          SizeOk(w.disk.transcript) && SizeOk(w.disk.replay) && Restorable(env, w.memory, n, k)
  {
    hide Run, Resume, ValidMemory, Shapes, TranscriptIs, ReplayIs, KnownOk, LatesOk, FlightAt, SizeOk, Restorable;
    RunKeeps(env, now, actions);
    var w := Run(env, now, actions);
    OnDisk(env, Forgot(w));
    if Resume(env, w.disk).Success? {
      SizeOkWhenResumed(env, w.disk);
    }
    forall n, k | FilesAre(env, w.memory, w.disk, n, k)
      ensures Resume(env, w.disk).Success? <==>
        SizeOk(w.disk.transcript) && SizeOk(w.disk.replay) && Restorable(env, w.memory, n, k)
    {
      var failure, at :| TranscriptIs(env, w.memory, w.disk.transcript, n, failure, at);
      ThrowsAt(env, w.memory, w.disk, n, failure, at, k);
    }
  }

  lemma OnDisk(env: Setup, w: World)
    requires TranscriptOk(env, w) && ReplayOk(env, w)
    ensures w.disk.transcript == [] || w.disk.replay == [] || exists n, k :: FilesAre(env, w.memory, w.disk, n, k)
  {
    hide TranscriptIs, ReplayIs;
    if n, failure, at :| TranscriptAt(env, w, n, failure, at) {
      if k :| ReplayAt(env, w, k) {
        assert FilesAre(env, w.memory, w.disk, n, k);
      }
    }
  }

  // ---- the search that is cut off ----

  /** The text whose MAC is the handle of a query. */
  function HandleText(env: Setup, sequence: nat, query: Text): Text {
    Wire(env.codec, Record(HANDLE_KEYS, HandleValues(env, sequence, query)))
  }

  function HandleValues(env: Setup, sequence: nat, query: Text): (values: seq<Json>)
    ensures |values| == 4
  {
    [Str(HANDLE_DOMAIN), Str(env.sessionId), Integer(sequence), Str(query)]
  }

  lemma HandlePrints(env: Setup, sequence: nat, query: Text)
    requires GoodSetup(env) && GoodTime(sequence)
    ensures var v := Record(HANDLE_KEYS, HandleValues(env, sequence, query));
      && WellFormed(env.codec, v) && Printable(v) && HandleText(env, sequence, query) == Print(env.codec, v)
      && Get(Normal(v), SEQUENCE) == Integer(sequence)
  {
    hide U, Wire, Print, Get;
    var values := HandleValues(env, sequence, query);
    NamesAreGood();
    IntegerWellFormed(env.codec, sequence);
    AtomsWellFormed(env.codec);
    RecordIsPrintable(env.codec, HANDLE_KEYS, values);
    GetNormalRecord(HANDLE_KEYS, values, 2);
    DefinedValues(HANDLE_KEYS, values);
    WireAgainstPrint(env.codec, Record(HANDLE_KEYS, values));
  }

  lemma DefinedValues(names: seq<Text>, values: seq<Json>)
    requires |names| == |values| && forall i :: 0 <= i < |values| ==> Defined(values[i])
    ensures Defined(Record(names, values))
  {
    var v := Record(names, values);
    forall f | f in v.fields ensures Defined(f.value) {
      var i :| 0 <= i < |names| && v.fields[i] == f;
    }
  }

  /** Handles of different entries are of different texts. */
  lemma HandleTextsDiffer(env: Setup, a: nat, b: nat, query: Text)
    requires GoodSetup(env) && GoodTime(a) && GoodTime(b) && a != b
    ensures HandleText(env, a, query) != HandleText(env, b, query)
  {
    hide U, Wire, Print, Get, HandleText, Normal, Record;
    HandlePrints(env, a, query);
    HandlePrints(env, b, query);
    ParsePrint(env.codec, Record(HANDLE_KEYS, HandleValues(env, a, query)), []);
    ParsePrint(env.codec, Record(HANDLE_KEYS, HandleValues(env, b, query)), []);
    assert Integer(a) != Integer(b);
  }

  ghost predicate SameHandles(env: Setup, a: nat, b: nat, query: Text) {
    Collision(env, HandleText(env, a, query), HandleText(env, b, query))
  }

  /** The handle of an entry is that of an earlier one, for the same query. */
  ghost predicate HandleRepeats(env: Setup, next: nat, query: Text) {
    exists sequence :: 1 <= sequence < next && SameHandles(env, sequence, next, query)
  }

  /** After any run in order with everything acknowledged, let a call record a search, and stop when its replay material
      has been renamed and its transcript has not: resuming throws, unless the MACs of two different texts collide. */
  lemma SearchCrashThrows(env: Setup, now: nat, actions: seq<Action>, a: Action)
    requires RunOk(env, now, actions) && RunInOrder(env, now, actions) && ActionOk(env, a) && a.Call? && a.query.Some?
    requires var w := Run(env, now, actions);
      && w.flight.Idle? && w.known == AllKnown(w.memory) && Act(env, w, a).flight.InFlight?
      && |Act(env, w, a).memory.dependencies| > |w.memory.dependencies|
    ensures var w := Run(env, now, actions); var v := Act(env, Act(env, w, a), RenameReplay);
      Resume(env, v.disk).Success? ==> HandleRepeats(env, |w.memory.dependencies| + 1, a.query.value)
  {
    hide Run, Act, Inv, Resume, InPlace, HandleRepeats, RunInOrder;
    RunKeeps(env, now, actions);
    SearchCrashAt(env, Run(env, now, actions), a);
  }

  lemma SearchCrashAt(env: Setup, w: World, a: Action)
    requires GoodSetup(env) && Inv(env, w) && InPlace(w) && ActionOk(env, a) && a.Call? && a.query.Some?
    requires w.flight.Idle? && w.known == AllKnown(w.memory) && Act(env, w, a).flight.InFlight?
    requires |Act(env, w, a).memory.dependencies| > |w.memory.dependencies|
    ensures var v := Act(env, Act(env, w, a), RenameReplay);
      Resume(env, v.disk).Success? ==> HandleRepeats(env, |w.memory.dependencies| + 1, a.query.value)
  {
    hide ActionOk, Inv, Resume, InPlace, HandleRepeats, Act, TranscriptIs, ReplayIs, Restorable, FlightAt;
    var u := Act(env, w, a);
    var v := Act(env, u, RenameReplay);
    StepKeeps(env, w, a);
    SearchRecorded(env, w, a);
    if Resume(env, v.disk).Success? {
      var at := FlightTime(env, u);
      ShapesOf(env, u);
      FlightTexts(env, u, at);
      ReplayRenamed(env, w, a);
      SizeOkWhenResumed(env, v.disk);
      var n, failure, then_ := WholeTranscript(env, w);
      TextsCarry(env, w.memory, u.memory);
      ThrowsAt(env, u.memory, v.disk, n, failure, then_, |u.memory.replayEntries|);
      ReasonRepeats(env, w.memory, u.memory, a, n);
    }
  }

  lemma ShapesOf(env: Setup, w: World)
    requires Inv(env, w)
    ensures Shapes(env, w.memory)
  {
    hide Shapes, ValidMemory, KnownOk, TranscriptOk, ReplayOk, LatesOk, FlightAt;
  }

  lemma ReplayRenamed(env: Setup, w: World, a: Action)
    requires w.flight.Idle? && a.Call? && Act(env, w, a).flight.InFlight?
    ensures var u := Act(env, w, a); var v := Act(env, u, RenameReplay);
      v.disk == Files(w.disk.transcript, u.flight.files.replay)
  {
    hide Append, FlushTexts;
  }

  /** With everything acknowledged, the transcript on disk holds every entry. */
  lemma WholeTranscript(env: Setup, w: World) returns (n: nat, failure: bool, at: nat)
    requires Inv(env, w) && w.known == AllKnown(w.memory) && w.disk.transcript != []
    ensures TranscriptIs(env, w.memory, w.disk.transcript, n, failure, at) && n == |w.memory.dependencies|
  {
    hide ValidMemory, Shapes, KnownOk, ReplayOk, LatesOk, FlightAt, Normal, Transcript, Printable, TranscriptText,
      Flagged;
    n, failure, at :| TranscriptAt(env, w, n, failure, at);
  }

  /** What the call added to the memory. */
  lemma SearchRecorded(env: Setup, w: World, a: Action)
    requires w.flight.Idle? && a.Call? && a.query.Some? && Act(env, w, a).flight.InFlight?
    requires |Act(env, w, a).memory.dependencies| > |w.memory.dependencies|
    ensures a.operation.Obj? && Added(env, w.memory, Act(env, w, a).memory, a)
  {
    hide NewEntry, NewReplayEntry, Recorded, Printable, Complete, FlushTexts;
  }

  ghost predicate Added(env: Setup, m: Memory, r: Memory, a: Action)
    requires a.Call? && a.query.Some? && a.operation.Obj?
  {
    var sequence := |m.dependencies| + 1;
    var recorded := Recorded(env, sequence, a.operation, a.query);
    && Printable(recorded) && sequence <= MAX_OPERATIONS
    && m.dependencies <= r.dependencies && (m.hadFailure ==> r.hadFailure)
    && r.replayEntries == m.replayEntries + [NewReplayEntry(env, sequence, recorded, a.query.value)]
  }

  lemma ReasonRepeats(env: Setup, m: Memory, r: Memory, a: Action, n: nat)
    requires GoodSetup(env) && ValidMemory(env, r) && a.Call? && a.query.Some? && a.operation.Obj?
    requires Added(env, m, r, a) && n == |m.dependencies| && Restorable(env, r, n, |r.replayEntries|)
    ensures HandleRepeats(env, n + 1, a.query.value)
  {
    hide Recorded, NewReplayEntry, Printable, Justifies, Chain, Complete, ReplayEntryOk, EventHash, Normal, SameHandles;
    var recorded := Recorded(env, n + 1, a.operation, a.query);
    var q := r.replayEntries[|m.replayEntries|];
    assert HasReason(env, q, r.dependencies[..n]);
    var j :| 0 <= j < n && Justifies(env, r.dependencies[..n][j], q);
    ReasonHandle(env, r.dependencies, j, n, recorded, a.query.value);
  }

  lemma EntrySequence(env: Setup, deps: seq<Json>, j: nat)
    requires Chain(env, deps) && j < |deps|
    ensures Get(deps[j], SEQUENCE) == Integer(j + 1)
  {
    hide Get, U, Wire, Print;
    assert EntryOk(env, deps[j], j + 1, HashBefore(env, deps, j));
  }

  lemma ReasonHandle(env: Setup, deps: seq<Json>, j: nat, n: nat, recorded: Json, query: Text)
    requires GoodSetup(env) && Chain(env, deps) && j < n < MAX_OPERATIONS && j < |deps| && Printable(recorded)
    requires Justifies(env, deps[j], NewReplayEntry(env, n + 1, recorded, query))
    ensures SameHandles(env, j + 1, n + 1, query)
  {
    hide NewReplayEntry, Printable, Get, ReplayHandle, HandleText, Chain, U, GoodSetup;
    NewReplayEntryFields(env, n + 1, recorded, query);
    EntrySequence(env, deps, j);
    SameHandle(env, j + 1, n + 1, query);
    HandleTextsDiffer(env, j + 1, n + 1, query);
  }

  lemma SameHandle(env: Setup, a: nat, b: nat, query: Text)
    ensures ReplayHandle(env, Integer(a), Str(query)) == env.mac(HandleText(env, a, query))
    ensures ReplayHandle(env, Integer(b), Str(query)) == env.mac(HandleText(env, b, query))
  {
    hide Wire, Record, U;
  }
}
