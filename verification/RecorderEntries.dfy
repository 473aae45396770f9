/** What an append records: the entry and the replay entry, value by value. */
module RecorderEntries {
  import opened Options
  import opened Texts
  import opened Json
  import opened JsonLaws
  import opened CanonicalTheorems
  import opened Recorder
  import opened RecorderLaws
  import opened RecorderCrash
  import opened RecorderSafety
  import opened RecorderThrows

  // ---- the recorded operation ----

  lemma SetFieldSet(fields: seq<Field>, k: Text, v: Json)
    requires DistinctKeys(fields)
    ensures DistinctKeys(SetField(fields, k, v)) && Get(Obj(SetField(fields, k, v)), k) == v
    ensures forall other | other != k :: Get(Obj(SetField(fields, k, v)), other) == Get(Obj(fields), other)
  {
    hide SetField, Get;
    SetFieldKeys(fields, k, v);
    SetFieldIs(fields, k, v);
    forall other | other != k ensures Get(Obj(SetField(fields, k, v)), other) == Get(Obj(fields), other) {
      SetFieldGet(fields, k, v, other);
    }
  }

  lemma SetFieldIs(fields: seq<Field>, k: Text, v: Json)
    requires DistinctKeys(fields)
    ensures Get(Obj(SetField(fields, k, v)), k) == v
  {
    var r := SetField(fields, k, v);
    SetFieldKeys(fields, k, v);
    if HasKey(fields, k) {
      IndexUnique(r, IndexOf(fields, k));
    } else {
      IndexUnique(r, |fields|);
    }
  }

  lemma DigestKeysDiffer()
    ensures QUERY_DIGEST != REPLAY_HANDLE_HASH
  {
    assert |QUERY_DIGEST| == 11 && |REPLAY_HANDLE_HASH| == 16;
  }

  /** The text whose MAC is the digest of a query. */
  function QueryText(env: Setup, query: Text): Text {
    Wire(env.codec, Record(QUERY_KEYS, [Str(QUERY_DOMAIN), Str(query)]))
  }

  lemma RecordedFields(env: Setup, sequence: nat, operation: Json, query: Text)
    requires operation.Obj? && DistinctKeys(operation.fields)
    ensures var o := Recorded(env, sequence, operation, Some(query));
      && Get(o, QUERY_DIGEST) == Str(env.mac(QueryText(env, query)))
      && Get(o, REPLAY_HANDLE_HASH) == Str(env.sha(env.mac(HandleText(env, sequence, query))))
      && forall k | k != QUERY_DIGEST && k != REPLAY_HANDLE_HASH :: Get(o, k) == Get(operation, k)
  {
    hide U, SetField, Get, Wire, Record;
    var digest := Str(env.mac(QueryText(env, query)));
    var handleHash := Str(env.sha(env.mac(HandleText(env, sequence, query))));
    var f := SetField(operation.fields, QUERY_DIGEST, digest);
    DigestKeysDiffer();
    SetFieldSet(operation.fields, QUERY_DIGEST, digest);
    SetFieldSet(f, REPLAY_HANDLE_HASH, handleHash);
    SameHandle(env, sequence, sequence, query);
  }

  // ---- the entry ----

  /** The entry an append puts at the end of the chain. */
  ghost predicate EntryRecords(env: Setup, deps: seq<Json>, operation: Json, result: Json, e: Json) {
    && Get(e, SEQUENCE) == Integer(|deps| + 1)
    && Get(e, PREVIOUS_EVENT_HASH) == HashBefore(env, deps, |deps|)
    && Printable(Get(e, OPERATION)) && Get(e, OPERATION_KEY) == Str(env.sha(Print(env.codec, Get(e, OPERATION))))
    && Get(e, RESULT) == result
    && Get(e, EVENT_HASH) == EventHash(env, e)
    && operation.Obj? && Get(e, OPERATION).Obj?
  }

  /** What a search adds to the operation its caller passed, and keeps beside the entry. */
  ghost predicate SearchRecords(env: Setup, sequence: nat, operation: Json, query: Text, e: Json, q: Json) {
    var o := Get(e, OPERATION);
    && Get(q, REPLAY_HANDLE) == Str(env.mac(HandleText(env, sequence, query)))
    && Get(q, QUERY) == Str(query) && Get(q, KIND) == Str(TEXT_SEARCH)
    && Get(q, OPERATION_KEY) == Get(e, OPERATION_KEY)
    && Get(o, QUERY_DIGEST) == Str(env.mac(QueryText(env, query)))
    && Get(o, REPLAY_HANDLE_HASH) == Str(env.sha(Get(q, REPLAY_HANDLE).s))
    && forall k | k != QUERY_DIGEST && k != REPLAY_HANDLE_HASH :: Get(o, k) == Get(operation, k)
  }

  /** An append that does not throw adds one entry at the end, with the caller's result. Without a query the recorded
      operation is the caller's, and nothing else is kept. With one, the recorded operation also holds the MAC of the
      query and the hash of the handle that the new replay entry holds, and is otherwise the caller's. The flag is set
      exactly when it was before, or the result is incomplete or truncated. */
  lemma AppendRecords(env: Setup, m: Memory, operation: Json, result: Json, query: Option<Text>)
    requires operation.Obj? && DistinctKeys(operation.fields) && Append(env, m, operation, result, query).1.Success?
    ensures var (r, added) := Append(env, m, operation, result, query);
      && r.dependencies == m.dependencies + [added.value]
      && EntryRecords(env, m.dependencies, operation, result, added.value)
      && (query.None? ==> Get(added.value, OPERATION) == operation && r.replayEntries == m.replayEntries)
      && (query.Some? ==>
            && |r.replayEntries| == |m.replayEntries| + 1 && m.replayEntries <= r.replayEntries
            && SearchRecords(env, |m.dependencies| + 1, operation, query.value, added.value,
                             r.replayEntries[|m.replayEntries|]))
      && (r.hadFailure <==>
            m.hadFailure || Get(result, COMPLETE) != Bool(true) || Get(result, TRUNCATED) != Bool(false))
  {
    hide U, Get, Wire, Print, Printable, Record, Recorded, NewReplayEntry, NewEntry, HandleText;
    var sequence := |m.dependencies| + 1;
    var recorded := Recorded(env, sequence, operation, query);
    NewEntryFields(env, m.dependencies, recorded, result);
    RecordedIsObject(env, sequence, operation, query);
    if query.Some? {
      RecordedFields(env, sequence, operation, query.value);
      NewReplayEntryFields(env, sequence, recorded, query.value);
      SameHandle(env, sequence, sequence, query.value);
    }
  }

  lemma RecordedIsObject(env: Setup, sequence: nat, operation: Json, query: Option<Text>)
    requires operation.Obj?
    ensures Recorded(env, sequence, operation, query).Obj?
    ensures query.None? ==> Recorded(env, sequence, operation, query) == operation
  {
  }

  /** An append throws when the chain is full, which sets the flag, or when the operation holds a number that does not
      print, which changes nothing; without a query, exactly then. */
  lemma AppendThrowsIff(env: Setup, m: Memory, operation: Json, result: Json, query: Option<Text>)
    requires operation.Obj? && DistinctKeys(operation.fields)
    ensures var (r, added) := Append(env, m, operation, result, query);
      && (|m.dependencies| >= MAX_OPERATIONS ==> added.Throw? && r == m.(hadFailure := true))
      && (|m.dependencies| < MAX_OPERATIONS ==>
            && (query.None? ==> (added.Throw? <==> !Printable(operation)))
            && (added.Throw? ==> r == m))
  {
    hide Recorded, Printable, NewEntry, NewReplayEntry, Complete;
    RecordedIsObject(env, |m.dependencies| + 1, operation, query);
  }

  // ---- what the digests stand for ----

  lemma QueryPrints(env: Setup, query: Text)
    requires GoodSetup(env)
    ensures var v := Record(QUERY_KEYS, [Str(QUERY_DOMAIN), Str(query)]);
      && WellFormed(env.codec, v) && Printable(v) && QueryText(env, query) == Print(env.codec, v)
      && Get(Normal(v), QUERY) == Str(query)
  {
    hide U, Wire, Print, Get;
    var values := [Str(QUERY_DOMAIN), Str(query)];
    NamesAreGood();
    AtomsWellFormed(env.codec);
    RecordIsPrintable(env.codec, QUERY_KEYS, values);
    GetNormalRecord(QUERY_KEYS, values, 1);
    DefinedValues(QUERY_KEYS, values);
    WireAgainstPrint(env.codec, Record(QUERY_KEYS, values));
  }

  /** Two queries with one digest are the same, or the MACs of two texts collide. */
  lemma DigestNamesQuery(env: Setup, a: Text, b: Text)
    requires GoodSetup(env) && env.mac(QueryText(env, a)) == env.mac(QueryText(env, b))
    ensures a == b || Collision(env, QueryText(env, a), QueryText(env, b))
  {
    hide U, Wire, Print, Get, QueryText, Normal, Record;
    if a != b && QueryText(env, a) == QueryText(env, b) {
      QueryPrints(env, a);
      QueryPrints(env, b);
      ParsePrint(env.codec, Record(QUERY_KEYS, [Str(QUERY_DOMAIN), Str(a)]), []);
      ParsePrint(env.codec, Record(QUERY_KEYS, [Str(QUERY_DOMAIN), Str(b)]), []);
      assert false;
    }
  }
}
