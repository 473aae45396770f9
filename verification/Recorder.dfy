/** `ContextGatewayRecorder` (src/context-gateway/context-gateway-recorder.ts): an append-only
    chain of authenticated events, flushed as two state files and resumed from them. */
module Recorder {
  import opened Options
  import opened Texts
  import opened Json

  const MAX_OPERATIONS: nat := 2000
  const MAX_STATE_BYTES: nat := 2 * 1024 * 1024

  /** The recorder's configuration with the hash functions it uses; `mac` is keyed by its secret. */
  datatype Setup = Setup(
    codec: NumberCodec,
    sha: Text -> Text,
    mac: Text -> Text,
    sessionId: Text,
    gatewayBinaryHash: Text,
    checkoutTreeOid: Text,
    eventChainSeedHash: Text)

  predicate HexUnit(u: Unit) { Digit(u) || 0x61 <= u <= 0x66 }

  /** `/^[a-f0-9]{64}$/` */
  predicate Sha256Text(t: Text) {
    |t| == 64 && forall i :: 0 <= i < |t| ==> HexUnit(t[i])
  }

  ghost predicate GoodSetup(env: Setup) {
    GoodCodec(env.codec) && (forall t :: Sha256Text(env.sha(t))) && (forall t :: Sha256Text(env.mac(t)))
  }

  // ---- records ----

  function Record(names: seq<Text>, values: seq<Json>): (v: Json)
    requires |names| == |values|
    ensures v.Obj? && |v.fields| == |names|
    ensures forall i :: 0 <= i < |names| ==> v.fields[i] == Field(names[i], values[i])
  {
    Obj(seq(|names|, i requires 0 <= i < |names| => Field(names[i], values[i])))
  }

  function Integer(n: nat): Json { Num(Finite(n as real)) }

  const EVENT_KEYS: seq<Text> :=
    [DOMAIN, SESSION_ID, SEQUENCE, PREVIOUS_EVENT_HASH, OPERATION_KEY, OPERATION, RESULT]
  const HANDLE_KEYS: seq<Text> := [DOMAIN, SESSION_ID, SEQUENCE, QUERY]
  const QUERY_KEYS: seq<Text> := [DOMAIN, QUERY]
  const ENTRY_KEYS: seq<Text> := [SEQUENCE, PREVIOUS_EVENT_HASH, OPERATION_KEY, OPERATION, RESULT, EVENT_HASH]
  const REPLAY_ENTRY_KEYS: seq<Text> := [REPLAY_HANDLE, OPERATION_KEY, KIND, QUERY]
  const REPLAY_KEYS: seq<Text> := [REPLAY_MATERIAL_VERSION, SESSION_ID, ENTRIES]
  const TRANSCRIPT_KEYS: seq<Text> :=
    [TRANSCRIPT_VERSION, SESSION_ID, GATEWAY_POLICY_VERSION, GATEWAY_BINARY_HASH, CHECKOUT_TREE_OID,
     EVENT_CHAIN_SEED_HASH, AUTHENTICATED_CHAIN_HASH, DEPENDENCIES, HAD_FAILURE, UPDATED_AT_MS]

  const DOMAIN: Text := U("domain")
  const SESSION_ID: Text := U("sessionId")
  const SEQUENCE: Text := U("sequence")
  const PREVIOUS_EVENT_HASH: Text := U("previousEventHash")
  const OPERATION_KEY: Text := U("operationKey")
  const OPERATION: Text := U("operation")
  const RESULT: Text := U("result")
  const EVENT_HASH: Text := U("eventHash")
  const QUERY: Text := U("query")
  const REPLAY_HANDLE: Text := U("replayHandle")
  const KIND: Text := U("kind")
  const REPLAY_MATERIAL_VERSION: Text := U("replayMaterialVersion")
  const ENTRIES: Text := U("entries")
  const TRANSCRIPT_VERSION: Text := U("transcriptVersion")
  const GATEWAY_POLICY_VERSION: Text := U("gatewayPolicyVersion")
  const GATEWAY_BINARY_HASH: Text := U("gatewayBinaryHash")
  const CHECKOUT_TREE_OID: Text := U("checkoutTreeOid")
  const EVENT_CHAIN_SEED_HASH: Text := U("eventChainSeedHash")
  const AUTHENTICATED_CHAIN_HASH: Text := U("authenticatedChainHash")
  const DEPENDENCIES: Text := U("dependencies")
  const HAD_FAILURE: Text := U("hadFailure")
  const UPDATED_AT_MS: Text := U("updatedAtMs")
  const COMPLETE: Text := U("complete")
  const TRUNCATED: Text := U("truncated")
  const QUERY_DIGEST: Text := U("queryDigest")
  const REPLAY_HANDLE_HASH: Text := U("replayHandleHash")
  const TEXT_SEARCH: Text := U("text_search")
  const POLICY_VERSION: Text := U("context-gateway-v3")
  const EVENT_DOMAIN: Text := U("rr.context-gateway-event.v1")
  const HANDLE_DOMAIN: Text := U("rr.context-replay-handle.v1")
  const QUERY_DOMAIN: Text := U("rr.context-search-query.v1")

  // ---- the second canonical printer, which the authenticated texts go through ----

  /** `canonicalJson` of review-action-v2.ts. It agrees with the first printer except that undefined
      prints as the bare word in an object and as nothing in an array, and NaN prints as null. */
  function Wire(c: NumberCodec, v: Json): Text
    decreases v, 0
  {
    match v
    case Undefined => U("undefined")
    case Null => U("null")
    case Bool(b) => if b then U("true") else U("false")
    case Num(n) => if n.NonFinite? then U("null") else PrintNumber(c, n)
    case Str(s) => Quote(s)
    case Arr(items) => [OPEN_BRACKET] + WireItems(c, items) + [CLOSE_BRACKET]
    case Obj(fields) =>
      SortedKeysAreKeys(fields);
      [OPEN_BRACE] + WireMembers(c, fields, SortedKeys(fields)) + [CLOSE_BRACE]
  }

  function WireItems(c: NumberCodec, items: seq<Json>): Text
    decreases items, 0
  {
    if items == [] then []
    else
      var head := if items[0].Undefined? then [] else Wire(c, items[0]);
      if |items| == 1 then head else head + [COMMA] + WireItems(c, items[1..])
  }

  function WireMembers(c: NumberCodec, fields: seq<Field>, keys: seq<Text>): Text
    requires forall k | k in keys :: HasKey(fields, k)
    decreases fields, |keys|
  {
    if keys == [] then []
    else
      var member := Quote(keys[0]) + [COLON] + Wire(c, fields[IndexOf(fields, keys[0])].value);
      if |keys| == 1 then member else member + [COMMA] + WireMembers(c, fields, keys[1..])
  }

  // ---- authenticated texts ----

  /** The event of an entry, as `canonicalizeReviewContextGatewayEvent` is given it. */
  function Event(env: Setup, entry: Json): Json {
    Record(EVENT_KEYS,
           [Str(EVENT_DOMAIN), Str(env.sessionId), Get(entry, SEQUENCE),
            Get(entry, PREVIOUS_EVENT_HASH), Get(entry, OPERATION_KEY), Get(entry, OPERATION),
            Get(entry, RESULT)])
  }

  function EventHash(env: Setup, entry: Json): Json {
    Str(env.mac(Wire(env.codec, Event(env, entry))))
  }

  function ReplayHandle(env: Setup, sequence: Json, query: Json): Text {
    env.mac(Wire(env.codec, Record(HANDLE_KEYS,
                                   [Str(HANDLE_DOMAIN), Str(env.sessionId), sequence, query])))
  }

  function QueryDigest(env: Setup, query: Text): Text {
    env.mac(Wire(env.codec, Record(QUERY_KEYS, [Str(QUERY_DOMAIN), Str(query)])))
  }

  // ---- memory ----

  datatype Memory = Memory(dependencies: seq<Json>, replayEntries: seq<Json>, hadFailure: bool)

  const EMPTY: Memory := Memory([], [], false)

  function HashBefore(env: Setup, deps: seq<Json>, i: nat): Json
    requires i <= |deps|
  {
    if i == 0 then Str(env.eventChainSeedHash) else Get(deps[i - 1], EVENT_HASH)
  }

  predicate Complete(entry: Json) {
    Get(Get(entry, RESULT), COMPLETE) == Bool(true)
    && Get(Get(entry, RESULT), TRUNCATED) == Bool(false)
  }

  /** The checks `restoreTranscript` makes of one entry. */
  predicate EntryOk(env: Setup, entry: Json, sequence: nat, previous: Json) {
    && Get(entry, SEQUENCE) == Integer(sequence)
    && Get(entry, PREVIOUS_EVENT_HASH) == previous
    && Printable(Get(entry, OPERATION))
    && Get(entry, OPERATION_KEY) == Str(env.sha(Print(env.codec, Get(entry, OPERATION))))
    && Get(entry, EVENT_HASH) == EventHash(env, entry)
    && Get(Get(entry, RESULT), COMPLETE).Bool?
    && Get(Get(entry, RESULT), TRUNCATED).Bool?
  }

  predicate Chain(env: Setup, deps: seq<Json>) {
    forall i :: 0 <= i < |deps| ==> EntryOk(env, deps[i], i + 1, HashBefore(env, deps, i))
  }

  /** The dependency that a replay entry belongs to. */
  predicate Justifies(env: Setup, dependency: Json, entry: Json) {
    && Get(dependency, OPERATION_KEY) == Get(entry, OPERATION_KEY)
    && Get(Get(dependency, OPERATION), KIND) == Str(TEXT_SEARCH)
    && Get(entry, REPLAY_HANDLE)
       == Str(ReplayHandle(env, Get(dependency, SEQUENCE), Get(entry, QUERY)))
  }

  predicate ReplayEntryShape(entry: Json) {
    && Get(entry, KIND) == Str(TEXT_SEARCH)
    && Get(entry, QUERY).Str?
    && Get(entry, OPERATION_KEY).Str? && Sha256Text(Get(entry, OPERATION_KEY).s)
    && Get(entry, REPLAY_HANDLE).Str? && Sha256Text(Get(entry, REPLAY_HANDLE).s)
  }

  predicate ReplayEntryOk(env: Setup, entry: Json, deps: seq<Json>) {
    ReplayEntryShape(entry) && exists i :: 0 <= i < |deps| && Justifies(env, deps[i], entry)
  }

  /** What every reachable recorder holds. */
  ghost predicate ValidMemory(env: Setup, m: Memory) {
    && |m.dependencies| <= MAX_OPERATIONS
    && Chain(env, m.dependencies)
    && ((exists i :: 0 <= i < |m.dependencies| && !Complete(m.dependencies[i])) ==> m.hadFailure)
    && |m.replayEntries| <= |m.dependencies|
    && forall i :: 0 <= i < |m.replayEntries| ==> ReplayEntryOk(env, m.replayEntries[i], m.dependencies)
  }

  // ---- append ----

  /** What the recorder's callers pass: an operation record, a result carrying both flags, and a
      query only with a text search. */
  ghost predicate RequestOk(env: Setup, operation: Json, result: Json, query: Option<Text>) {
    && operation.Obj? && WellFormed(env.codec, operation) && WellFormed(env.codec, result)
    && Get(result, COMPLETE).Bool? && Get(result, TRUNCATED).Bool?
    && (query.Some? ==> Get(operation, KIND) == Str(TEXT_SEARCH))
  }

  /** The recorded operation: a search also carries the digest of its query and of its handle. */
  function Recorded(env: Setup, sequence: nat, operation: Json, query: Option<Text>): Json
    requires operation.Obj?
  {
    if query.None? then operation
    else
      var digest := Str(QueryDigest(env, query.value));
      var handleHash := Str(env.sha(ReplayHandle(env, Integer(sequence), Str(query.value))));
      Obj(SetField(SetField(operation.fields, QUERY_DIGEST, digest), REPLAY_HANDLE_HASH, handleHash))
  }

  function NewEntry(env: Setup, deps: seq<Json>, operation: Json, result: Json): Json
    requires Printable(operation)
  {
    var fields := [Integer(|deps| + 1), HashBefore(env, deps, |deps|),
                   Str(env.sha(Print(env.codec, operation))), operation, result];
    Record(ENTRY_KEYS, fields + [EventHash(env, Record(ENTRY_KEYS[..5], fields))])
  }

  function NewReplayEntry(env: Setup, sequence: nat, operation: Json, query: Text): Json
    requires Printable(operation)
  {
    Record(REPLAY_ENTRY_KEYS,
           [Str(ReplayHandle(env, Integer(sequence), Str(query))), Str(env.sha(Print(env.codec, operation))),
            Str(TEXT_SEARCH), Str(query)])
  }

  /** The memory after `append` has run up to its flush, and what the call will return. */
  function Append(env: Setup, m: Memory, operation: Json, result: Json, query: Option<Text>)
      : (r: (Memory, Outcome<Json>))
    requires operation.Obj?
  {
    if |m.dependencies| >= MAX_OPERATIONS then
      (m.(hadFailure := true), Throw("context_gateway_operation_limit_exceeded"))
    else
      var sequence := |m.dependencies| + 1;
      var recorded := Recorded(env, sequence, operation, query);
      if !Printable(recorded) then (m, Throw("context_gateway_non_finite_number"))
      else
        var entry := NewEntry(env, m.dependencies, recorded, result);
        var replay := if query.Some? then [NewReplayEntry(env, sequence, recorded, query.value)] else [];
        (Memory(m.dependencies + [entry], m.replayEntries + replay, m.hadFailure || !Complete(entry)),
         Success(entry))
  }

  // ---- state files ----

  function Transcript(env: Setup, m: Memory, now: nat): Json {
    Record(TRANSCRIPT_KEYS,
           [Integer(1), Str(env.sessionId), Str(POLICY_VERSION), Str(env.gatewayBinaryHash),
            Str(env.checkoutTreeOid), Str(env.eventChainSeedHash),
            HashBefore(env, m.dependencies, |m.dependencies|), Arr(m.dependencies), Bool(m.hadFailure), Integer(now)])
  }

  function ReplayMaterial(env: Setup, m: Memory): Json {
    Record(REPLAY_KEYS, [Integer(1), Str(env.sessionId), Arr(m.replayEntries)])
  }

  datatype Files = Files(transcript: Text, replay: Text)

  /** The two texts of one flush. */
  function FlushTexts(env: Setup, m: Memory, now: nat): Outcome<Files> {
    var transcript := CanonicalJson(env.codec, Transcript(env, m, now));
    var replay := CanonicalJson(env.codec, ReplayMaterial(env, m));
    if transcript.Throw? then Throw(transcript.reason)
    else if replay.Throw? then Throw(replay.reason)
    else Success(Files(transcript.value, replay.value))
  }

  /** Bytes of the UTF-8 form; surrogates come in pairs of two bytes each. */
  function Utf8Length(t: Text): nat {
    if t == [] then 0
    else (if t[0] < 0x80 then 1 else if t[0] < 0x800 || High(t[0]) || Low(t[0]) then 2 else 3) + Utf8Length(t[1..])
  }

  predicate SizeOk(raw: Text) {
    |raw| >= 2 && Utf8Length(raw) <= MAX_STATE_BYTES
  }

  // ---- resume ----

  predicate TranscriptIdentityOk(env: Setup, t: Json) {
    && Get(t, TRANSCRIPT_VERSION) == Integer(1)
    && Get(t, SESSION_ID) == Str(env.sessionId)
    && Get(t, GATEWAY_POLICY_VERSION) == Str(POLICY_VERSION)
    && Get(t, GATEWAY_BINARY_HASH) == Str(env.gatewayBinaryHash)
    && Get(t, CHECKOUT_TREE_OID) == Str(env.checkoutTreeOid)
    && Get(t, EVENT_CHAIN_SEED_HASH) == Str(env.eventChainSeedHash)
    && Get(t, HAD_FAILURE).Bool?
    && Get(t, UPDATED_AT_MS).Num? && Get(t, UPDATED_AT_MS).n.Finite?
    && SafeInteger(Get(t, UPDATED_AT_MS).n.value) && Get(t, UPDATED_AT_MS).n.value >= 0.0
    && Get(t, DEPENDENCIES).Arr?
    && |Get(t, DEPENDENCIES).items| <= MAX_OPERATIONS
  }

  /** `restoreTranscript`: the dependencies and the failure flag, or the reason for throwing. */
  function RestoreTranscript(env: Setup, t: Json): Outcome<(seq<Json>, bool)> {
    if !TranscriptIdentityOk(env, t) then Throw("transcript_identity_invalid")
    else
      var deps, hadFailure := Get(t, DEPENDENCIES).items, Get(t, HAD_FAILURE).b;
      if !Chain(env, deps) then Throw("transcript_chain_invalid")
      else if Get(t, AUTHENTICATED_CHAIN_HASH) != HashBefore(env, deps, |deps|)
              || ((exists i :: 0 <= i < |deps| && !Complete(deps[i])) && !hadFailure) then
        Throw("transcript_state_invalid")
      else Success((deps, hadFailure))
  }

  predicate ReplayIdentityOk(env: Setup, r: Json, count: nat) {
    && Get(r, REPLAY_MATERIAL_VERSION) == Integer(1)
    && Get(r, SESSION_ID) == Str(env.sessionId)
    && Get(r, ENTRIES).Arr?
    && |Get(r, ENTRIES).items| <= count
  }

  /** Why `restoreReplayMaterial` rejects an entry, if it does. */
  function ReplayFault(env: Setup, entry: Json, deps: seq<Json>): Option<string> {
    if !ReplayEntryShape(entry) then Some("replay_entry_invalid")
    else if !ReplayEntryOk(env, entry, deps) then Some("replay_chain_invalid")
    else None
  }

  function RestoreEntries(env: Setup, entries: seq<Json>, deps: seq<Json>): Outcome<seq<Json>> {
    if entries == [] then Success([])
    else
      var fault := ReplayFault(env, entries[0], deps);
      if fault.Some? then Throw(fault.value)
      else
        var tail := RestoreEntries(env, entries[1..], deps);
        if tail.Success? then Success([entries[0]] + tail.value) else Throw(tail.reason)
  }

  function RestoreReplay(env: Setup, r: Json, deps: seq<Json>): Outcome<seq<Json>> {
    if !ReplayIdentityOk(env, r, |deps|) then Throw("replay_identity_invalid")
    else RestoreEntries(env, Get(r, ENTRIES).items, deps)
  }

  /** `resume` of a fresh recorder from the two files. */
  function Resume(env: Setup, files: Files): Outcome<Memory> {
    if !SizeOk(files.transcript) || !SizeOk(files.replay) then Throw("state_size_invalid")
    else
      var transcript := ParseCanonicalState(env.codec, files.transcript);
      if transcript.Throw? then Throw(transcript.reason)
      else
        var replay := ParseCanonicalState(env.codec, files.replay);
        if replay.Throw? then Throw(replay.reason)
        else
          var restored := RestoreTranscript(env, transcript.value);
          if restored.Throw? then Throw(restored.reason)
          else
            var entries := RestoreReplay(env, replay.value, restored.value.0);
            if entries.Throw? then Throw(entries.reason)
            else Success(Memory(restored.value.0, entries.value, restored.value.1))
  }
}
