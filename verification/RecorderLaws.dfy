/** What one flush and one resume of the recorder's state files preserve. */
module RecorderLaws {
  import opened Texts
  import opened Json
  import opened JsonLaws
  import opened CanonicalTheorems
  import opened Recorder

  // ---- records and their keys ----

  ghost predicate GoodNames(names: seq<Text>) {
    forall i, j :: 0 <= i < j < |names| ==> names[i] != names[j]
  }

  /** The key names of each record are told apart by their length or their first character. */
  lemma NamesAreGood()
    ensures GoodNames(EVENT_KEYS) && GoodNames(HANDLE_KEYS) && GoodNames(QUERY_KEYS) && GoodNames(ENTRY_KEYS)
    ensures GoodNames(REPLAY_ENTRY_KEYS) && GoodNames(REPLAY_KEYS) && GoodNames(TRANSCRIPT_KEYS)
  {
    assert |DOMAIN| == |RESULT| == 6 && DOMAIN[0] != RESULT[0];
    assert |SESSION_ID| == |OPERATION| == |EVENT_HASH| == 9;
    assert SESSION_ID[0] != OPERATION[0] && OPERATION[0] != EVENT_HASH[0];
    assert |REPLAY_HANDLE| == |OPERATION_KEY| == |DEPENDENCIES| == 12 && REPLAY_HANDLE[0] != OPERATION_KEY[0];
    assert |TRANSCRIPT_VERSION| == |GATEWAY_BINARY_HASH| == |PREVIOUS_EVENT_HASH| == 17;
    assert TRANSCRIPT_VERSION[0] != GATEWAY_BINARY_HASH[0];
  }

  lemma RecordKeysDistinct(names: seq<Text>, values: seq<Json>)
    requires |names| == |values| && GoodNames(names)
    ensures DistinctKeys(Record(names, values).fields)
  {
  }

  lemma GetRecord(names: seq<Text>, values: seq<Json>, i: nat)
    requires |names| == |values| && GoodNames(names) && i < |names|
    ensures HasKey(Record(names, values).fields, names[i])
    ensures Get(Record(names, values), names[i]) == values[i]
  {
    RecordKeysDistinct(names, values);
    IndexUnique(Record(names, values).fields, i);
  }

  lemma GetNormal(v: Json, k: Text)
    requires v.Obj? && DistinctKeys(v.fields) && HasKey(v.fields, k)
    ensures Normal(v).Obj? && HasKey(Normal(v).fields, k)
    ensures Get(Normal(v), k) == Normal(Get(v, k))
  {
    LookupNormal(v.fields, k);
  }

  lemma GetNormalRecord(names: seq<Text>, values: seq<Json>, i: nat)
    requires |names| == |values| && GoodNames(names) && i < |names|
    ensures Get(Normal(Record(names, values)), names[i]) == Normal(values[i])
  {
    RecordKeysDistinct(names, values);
    GetRecord(names, values, i);
    GetNormal(Record(names, values), names[i]);
  }

  lemma RecordWellFormed(c: NumberCodec, names: seq<Text>, values: seq<Json>)
    requires |names| == |values| && GoodNames(names)
    requires forall i :: 0 <= i < |values| ==> WellFormed(c, values[i])
    ensures WellFormed(c, Record(names, values))
  {
    RecordKeysDistinct(names, values);
  }

  lemma RecordSame(names: seq<Text>, vs: seq<Json>, ws: seq<Json>)
    requires |names| == |vs| == |ws| && GoodNames(names)
    requires forall i :: 0 <= i < |names| ==> Same(vs[i], ws[i])
    ensures Same(Record(names, vs), Record(names, ws))
  {
    var f, g := Record(names, vs).fields, Record(names, ws).fields;
    forall k ensures HasKey(f, k) <==> HasKey(g, k) {
      if HasKey(f, k) { assert g[IndexOf(f, k)].key == k; }
      if HasKey(g, k) { assert f[IndexOf(g, k)].key == k; }
    }
    forall i | 0 <= i < |f| ensures Same(f[i].value, Lookup(g, f[i].key)) {
      GetRecord(names, ws, i);
    }
  }

  // ---- the two printers ----

  /** On values without undefined the two printers agree; any undefined makes the second text shorter. */
  lemma {:induction false} WireAgainstPrint(c: NumberCodec, v: Json)
    requires WellFormed(c, v) && Printable(v)
    ensures Defined(v) ==> Wire(c, v) == Print(c, v)
    ensures !Defined(v) ==> |Wire(c, v)| < |Print(c, v)|
    decreases v, 0
  {
    match v
    case Arr(items) => WireItemsAgainstPrint(c, items);
    case Obj(fields) =>
      SortedKeysAreKeys(fields);
      WireMembersAgainstPrint(c, fields, SortedKeys(fields));
      DefinedByKeys(fields);
    case _ =>
  }

  lemma DefinedByKeys(fields: seq<Field>)
    requires DistinctKeys(fields)
    ensures Defined(Obj(fields)) <==> forall k | k in SortedKeys(fields) :: Defined(Lookup(fields, k))
  {
    SortedKeysAreKeys(fields);
    forall f | f in fields ensures Lookup(fields, f.key) == f.value {
      var i :| 0 <= i < |fields| && fields[i] == f;
      IndexUnique(fields, i);
    }
    forall k | k in SortedKeys(fields) ensures fields[IndexOf(fields, k)] in fields {
    }
  }

  lemma {:induction false} WireItemsAgainstPrint(c: NumberCodec, items: seq<Json>)
    requires forall x | x in items :: WellFormed(c, x) && Printable(x)
    ensures (forall x | x in items :: Defined(x)) ==> WireItems(c, items) == PrintItems(c, items)
    ensures !(forall x | x in items :: Defined(x)) ==> |WireItems(c, items)| < |PrintItems(c, items)|
    decreases items, 0
  {
    if items != [] {
      WireAgainstPrint(c, items[0]);
      WireItemsAgainstPrint(c, items[1..]);
      assert forall x | x in items :: x == items[0] || x in items[1..];
      assert forall x | x in items[1..] :: x in items;
      if |items| == 1 {
        assert items[1..] == [];
      }
    }
  }

  lemma {:induction false} WireMembersAgainstPrint(c: NumberCodec, fields: seq<Field>, keys: seq<Text>)
    requires forall f | f in fields :: WellFormed(c, f.value) && Printable(f.value)
    requires forall k | k in keys :: HasKey(fields, k)
    ensures (forall k | k in keys :: Defined(Lookup(fields, k))) ==>
      WireMembers(c, fields, keys) == PrintMembers(c, fields, keys)
    ensures !(forall k | k in keys :: Defined(Lookup(fields, k))) ==>
      |WireMembers(c, fields, keys)| < |PrintMembers(c, fields, keys)|
    decreases fields, |keys|
  {
    if keys != [] {
      var i := IndexOf(fields, keys[0]);
      assert fields[i] in fields && Lookup(fields, keys[0]) == fields[i].value;
      WireAgainstPrint(c, fields[i].value);
      WireMembersAgainstPrint(c, fields, keys[1..]);
      assert forall k | k in keys :: k == keys[0] || k in keys[1..];
      assert forall k | k in keys[1..] :: k in keys;
      if |keys| == 1 {
        assert keys[1..] == [];
      }
    }
  }

  // ---- entries on their way through a file ----

  /** An entry object with every key an event is made of. */
  ghost predicate Shaped(env: Setup, e: Json) {
    && WellFormed(env.codec, e) && e.Obj?
    && forall k | k in ENTRY_KEYS :: HasKey(e.fields, k)
  }

  lemma EntryGet(env: Setup, e: Json, k: Text)
    requires Shaped(env, e) && k in ENTRY_KEYS
    ensures WellFormed(env.codec, Get(e, k))
    ensures Printable(e) ==> Printable(Get(e, k))
    ensures Get(Normal(e), k) == Normal(Get(e, k))
  {
    assert e.fields[IndexOf(e.fields, k)] in e.fields;
    GetNormal(e, k);
  }

  lemma ShapedNormal(env: Setup, e: Json)
    requires GoodSetup(env) && Shaped(env, e) && Printable(e)
    ensures Shaped(env, Normal(e)) && Printable(Normal(e)) && Normal(Normal(e)) == Normal(e)
  {
    NormalIsPlain(env.codec, e);
    NormalOnce(env.codec, e);
    forall k | k in ENTRY_KEYS ensures HasKey(Normal(e).fields, k) {
      GetNormal(e, k);
    }
  }

  function EventValues(env: Setup, e: Json): seq<Json> {
    [Str(EVENT_DOMAIN), Str(env.sessionId), Get(e, SEQUENCE),
     Get(e, PREVIOUS_EVENT_HASH), Get(e, OPERATION_KEY), Get(e, OPERATION), Get(e, RESULT)]
  }

  lemma EventParts(env: Setup, e: Json, i: nat)
    requires GoodSetup(env) && Shaped(env, e) && Printable(e) && i < 7
    ensures var v := EventValues(env, e)[i];
      WellFormed(env.codec, v) && Printable(v) && EventValues(env, Normal(e))[i] == Normal(v)
  {
    hide U, Get;
    if i == 2 {
      EntryGet(env, e, SEQUENCE);
    } else if i == 3 {
      EntryGet(env, e, PREVIOUS_EVENT_HASH);
    } else if i == 4 {
      EntryGet(env, e, OPERATION_KEY);
    } else if i == 5 {
      EntryGet(env, e, OPERATION);
    } else if i == 6 {
      EntryGet(env, e, RESULT);
    }
  }

  lemma EventWellFormed(env: Setup, e: Json)
    requires GoodSetup(env) && Shaped(env, e) && Printable(e)
    ensures WellFormed(env.codec, Event(env, e)) && Printable(Event(env, e))
  {
    forall i | 0 <= i < 7
      ensures WellFormed(env.codec, EventValues(env, e)[i]) && Printable(EventValues(env, e)[i])
    {
      EventParts(env, e, i);
    }
    NamesAreGood();
    RecordWellFormed(env.codec, EVENT_KEYS, EventValues(env, e));
  }

  /** The event of an entry is the same value before and after the file. */
  lemma EventSurvives(env: Setup, e: Json)
    requires GoodSetup(env) && Shaped(env, e) && Printable(e)
    ensures WellFormed(env.codec, Event(env, e)) && Printable(Event(env, e))
    ensures Wire(env.codec, Event(env, Normal(e))) == Print(env.codec, Event(env, e))
  {
    hide U, Get, Wire, Print, Normal;
    var c, vs, ws := env.codec, EventValues(env, e), EventValues(env, Normal(e));
    forall i | 0 <= i < 7 ensures Same(vs[i], ws[i]) && Defined(ws[i]) {
      EventParts(env, e, i);
      SameAsNormal(vs[i]);
      NormalIsPlain(c, vs[i]);
    }
    NamesAreGood();
    RecordSame(EVENT_KEYS, vs, ws);
    EventWellFormed(env, e);
    ShapedNormal(env, e);
    EventWellFormed(env, Normal(e));
    SamePrints(c, Event(env, e), Event(env, Normal(e)));
    WireAgainstPrint(c, Event(env, Normal(e)));
  }

  /** A resumed entry has the hash it was written with if its event holds no undefined; otherwise
      the two hashes were taken of different texts. */
  lemma HashSurvives(env: Setup, e: Json)
    requires GoodSetup(env) && Shaped(env, e) && Printable(e)
    ensures Defined(Event(env, e)) ==> EventHash(env, Normal(e)) == EventHash(env, e)
    ensures !Defined(Event(env, e)) ==>
      Wire(env.codec, Event(env, Normal(e))) != Wire(env.codec, Event(env, e))
  {
    hide U, Get, Wire, Print, Normal;
    EventSurvives(env, e);
    WireAgainstPrint(env.codec, Event(env, e));
  }

  lemma ResultSurvives(env: Setup, e: Json)
    requires Shaped(env, e) && Get(Get(e, RESULT), COMPLETE).Bool?
    requires Get(Get(e, RESULT), TRUNCATED).Bool?
    ensures Get(Get(Normal(e), RESULT), COMPLETE) == Get(Get(e, RESULT), COMPLETE)
    ensures Get(Get(Normal(e), RESULT), TRUNCATED) == Get(Get(e, RESULT), TRUNCATED)
  {
    EntryGet(env, e, RESULT);
    var r := Get(e, RESULT);
    GetNormal(r, COMPLETE);
    GetNormal(r, TRUNCATED);
  }

  /** Everything but the event hash of a resumed entry passes the checks it passed before. */
  lemma EntrySurvives(env: Setup, e: Json, sequence: nat, previous: Json)
    requires GoodSetup(env) && Shaped(env, e) && Printable(e)
    requires EntryOk(env, e, sequence, previous) && previous.Str?
    ensures Get(Normal(e), EVENT_HASH) == Get(e, EVENT_HASH)
    ensures Complete(Normal(e)) == Complete(e)
    ensures EntryOk(env, Normal(e), sequence, previous) <==> EventHash(env, Normal(e)) == EventHash(env, e)
  {
    hide U, Wire, Print;
    EntryGet(env, e, SEQUENCE);
    EntryGet(env, e, PREVIOUS_EVENT_HASH);
    EntryGet(env, e, OPERATION_KEY);
    EntryGet(env, e, OPERATION);
    EntryGet(env, e, EVENT_HASH);
    ResultSurvives(env, e);
    NormalPrints(env.codec, Get(e, OPERATION));
  }

  lemma ChainHashesAreTexts(env: Setup, deps: seq<Json>, i: nat)
    requires Chain(env, deps) && i <= |deps|
    ensures HashBefore(env, deps, i).Str?
  {
    if i > 0 {
      assert EntryOk(env, deps[i - 1], i, HashBefore(env, deps, i - 1));
    }
  }

  ghost predicate AllShaped(env: Setup, deps: seq<Json>) {
    forall i :: 0 <= i < |deps| ==> Shaped(env, deps[i]) && Printable(deps[i])
  }

  lemma {:induction false} HashesSurvive(env: Setup, deps: seq<Json>, i: nat)
    requires GoodSetup(env) && Chain(env, deps) && AllShaped(env, deps) && i <= |deps|
    ensures HashBefore(env, NormalItems(deps), i) == HashBefore(env, deps, i)
  {
    hide Get, EventHash, Normal, Printable, Complete, Shaped, EntryOk;
    if i > 0 {
      ChainHashesAreTexts(env, deps, i - 1);
      EntrySurvives(env, deps[i - 1], i, HashBefore(env, deps, i - 1));
    }
  }

  lemma ChainEntrySurvives(env: Setup, deps: seq<Json>, i: nat)
    requires GoodSetup(env) && Chain(env, deps) && AllShaped(env, deps) && i < |deps|
    ensures var ns := NormalItems(deps);
      && Complete(ns[i]) == Complete(deps[i])
      && (EntryOk(env, ns[i], i + 1, HashBefore(env, ns, i)) <==>
          EventHash(env, Normal(deps[i])) == EventHash(env, deps[i]))
  {
    hide Get, EventHash, Normal, Printable, Complete, Shaped, EntryOk, HashBefore;
    HashesSurvive(env, deps, i);
    ChainHashesAreTexts(env, deps, i);
    EntrySurvives(env, deps[i], i + 1, HashBefore(env, deps, i));
  }

  /** Which written chains are accepted when they are read back. */
  lemma ChainSurvives(env: Setup, deps: seq<Json>)
    requires GoodSetup(env) && Chain(env, deps) && AllShaped(env, deps)
    ensures Chain(env, NormalItems(deps)) <==>
      forall i :: 0 <= i < |deps| ==> EventHash(env, Normal(deps[i])) == EventHash(env, deps[i])
    ensures forall i :: 0 <= i < |deps| ==> Complete(NormalItems(deps)[i]) == Complete(deps[i])
  {
    hide Get, EventHash, Normal, Printable, Complete, Shaped, EntryOk, HashBefore;
    var ns := NormalItems(deps);
    forall i | 0 <= i < |deps|
      ensures Complete(ns[i]) == Complete(deps[i])
      ensures EntryOk(env, ns[i], i + 1, HashBefore(env, ns, i)) <==>
        EventHash(env, Normal(deps[i])) == EventHash(env, deps[i])
    {
      ChainEntrySurvives(env, deps, i);
    }
  }

  // ---- replay entries on their way through a file ----

  ghost predicate ReplayShaped(env: Setup, r: Json) {
    && WellFormed(env.codec, r) && r.Obj? && Printable(r)
    && forall k | k in REPLAY_ENTRY_KEYS :: HasKey(r.fields, k)
  }

  ghost predicate AllReplayShaped(env: Setup, rs: seq<Json>) {
    forall i :: 0 <= i < |rs| ==> ReplayShaped(env, rs[i])
  }

  lemma GetSurvives(c: NumberCodec, v: Json, k: Text)
    requires WellFormed(c, v) && Get(v, k) != Undefined
    ensures Get(Normal(v), k) == Normal(Get(v, k))
  {
    GetNormal(v, k);
  }

  lemma ReplayShapeSurvives(env: Setup, r: Json)
    requires ReplayShaped(env, r) && ReplayEntryShape(r)
    ensures ReplayEntryShape(Normal(r))
    ensures Get(Normal(r), OPERATION_KEY) == Get(r, OPERATION_KEY)
    ensures Get(Normal(r), REPLAY_HANDLE) == Get(r, REPLAY_HANDLE)
    ensures Get(Normal(r), QUERY) == Get(r, QUERY)
  {
    hide Get, U, WellFormed;
    GetSurvives(env.codec, r, REPLAY_HANDLE);
    GetSurvives(env.codec, r, OPERATION_KEY);
    GetSurvives(env.codec, r, KIND);
    GetSurvives(env.codec, r, QUERY);
  }

  lemma JustifiesSurvives(env: Setup, d: Json, r: Json, sequence: nat)
    requires Shaped(env, d) && Get(d, SEQUENCE) == Integer(sequence)
    requires ReplayShaped(env, r) && ReplayEntryShape(r) && Justifies(env, d, r)
    ensures Justifies(env, Normal(d), Normal(r))
  {
    hide Get, U, WellFormed, ReplayHandle;
    ReplayShapeSurvives(env, r);
    EntryGet(env, d, SEQUENCE);
    EntryGet(env, d, OPERATION_KEY);
    EntryGet(env, d, OPERATION);
    GetSurvives(env.codec, Get(d, OPERATION), KIND);
  }

  lemma ReplayEntrySurvives(env: Setup, r: Json, deps: seq<Json>)
    requires AllShaped(env, deps) && Chain(env, deps)
    requires ReplayShaped(env, r) && ReplayEntryOk(env, r, deps)
    ensures ReplayEntryOk(env, Normal(r), NormalItems(deps))
  {
    hide Get, Normal, Justifies, Shaped, ReplayShaped, ReplayEntryShape;
    ReplayShapeSurvives(env, r);
    var i :| 0 <= i < |deps| && Justifies(env, deps[i], r);
    assert EntryOk(env, deps[i], i + 1, HashBefore(env, deps, i));
    JustifiesSurvives(env, deps[i], r, i + 1);
    assert NormalItems(deps)[i] == Normal(deps[i]);
  }

  // ---- one file ----

  ghost predicate GoodTime(now: nat) {
    now <= MAX_SAFE_INTEGER
  }

  lemma IntegerWellFormed(c: NumberCodec, n: nat)
    requires GoodCodec(c) && n <= MAX_SAFE_INTEGER
    ensures WellFormed(c, Integer(n))
  {
    assert (n as real).Floor == n;
    assert SafeInteger(n as real);
  }

  function TranscriptValues(env: Setup, m: Memory, now: nat): seq<Json> {
    [Integer(1), Str(env.sessionId), Str(POLICY_VERSION), Str(env.gatewayBinaryHash),
     Str(env.checkoutTreeOid), Str(env.eventChainSeedHash),
     HashBefore(env, m.dependencies, |m.dependencies|), Arr(m.dependencies), Bool(m.hadFailure), Integer(now)]
  }

  /** The memory whose files are about to be written: chained, of known shape, printable. */
  ghost predicate Writable(env: Setup, m: Memory, now: nat) {
    && GoodSetup(env) && GoodTime(now)
    && Chain(env, m.dependencies) && AllShaped(env, m.dependencies) && AllReplayShaped(env, m.replayEntries)
  }

  lemma RecordIsPrintable(c: NumberCodec, names: seq<Text>, values: seq<Json>)
    requires |names| == |values| && GoodNames(names)
    requires forall i :: 0 <= i < |values| ==> WellFormed(c, values[i]) && Printable(values[i])
    ensures WellFormed(c, Record(names, values)) && Printable(Record(names, values))
  {
    RecordWellFormed(c, names, values);
  }

  lemma ListIsPrintable(env: Setup, deps: seq<Json>)
    ensures AllShaped(env, deps) ==> WellFormed(env.codec, Arr(deps)) && Printable(Arr(deps))
    ensures AllReplayShaped(env, deps) ==> WellFormed(env.codec, Arr(deps)) && Printable(Arr(deps))
  {
    hide U;
  }

  lemma TranscriptPrints(env: Setup, m: Memory, now: nat)
    requires Writable(env, m, now)
    ensures WellFormed(env.codec, Transcript(env, m, now)) && Printable(Transcript(env, m, now))
  {
    hide U, Get, AllShaped, AllReplayShaped, Chain, HashBefore;
    var values := TranscriptValues(env, m, now);
    NamesAreGood();
    IntegerWellFormed(env.codec, 1);
    IntegerWellFormed(env.codec, now);
    ChainHashesAreTexts(env, m.dependencies, |m.dependencies|);
    ListIsPrintable(env, m.dependencies);
    forall i | 0 <= i < |values| ensures WellFormed(env.codec, values[i]) && Printable(values[i]) {
      if i == 7 {
        assert values[i] == Arr(m.dependencies);
      }
    }
    RecordIsPrintable(env.codec, TRANSCRIPT_KEYS, values);
  }

  lemma ReplayPrints(env: Setup, m: Memory, now: nat)
    requires Writable(env, m, now)
    ensures WellFormed(env.codec, ReplayMaterial(env, m)) && Printable(ReplayMaterial(env, m))
  {
    hide U, Get, AllShaped, AllReplayShaped, Chain, HashBefore;
    NamesAreGood();
    IntegerWellFormed(env.codec, 1);
    ListIsPrintable(env, m.replayEntries);
    var values := [Integer(1), Str(env.sessionId), Arr(m.replayEntries)];
    forall i | 0 <= i < |values| ensures WellFormed(env.codec, values[i]) && Printable(values[i]) {
    }
    RecordIsPrintable(env.codec, REPLAY_KEYS, values);
  }

  lemma NormalAtoms(m: Memory, now: nat, hash: Json)
    requires hash.Str?
    ensures Normal(Arr(m.dependencies)) == Arr(NormalItems(m.dependencies))
    ensures Normal(Bool(m.hadFailure)) == Bool(m.hadFailure) && Normal(hash) == hash
    ensures Normal(Integer(1)) == Integer(1) && Normal(Integer(now)) == Integer(now)
    ensures forall t :: Normal(Str(t)) == Str(t)
  {
  }

  lemma TranscriptField(env: Setup, m: Memory, now: nat, i: nat)
    requires i < 10
    ensures Get(Normal(Transcript(env, m, now)), TRANSCRIPT_KEYS[i]) == Normal(TranscriptValues(env, m, now)[i])
  {
    hide Get, Normal, U, HashBefore;
    NamesAreGood();
    GetNormalRecord(TRANSCRIPT_KEYS, TranscriptValues(env, m, now), i);
  }

  /** The fields of the transcript that is read back. */
  lemma TranscriptReadBack(env: Setup, m: Memory, now: nat)
    requires Writable(env, m, now)
    ensures var t := Normal(Transcript(env, m, now));
      && Get(t, DEPENDENCIES) == Arr(NormalItems(m.dependencies))
      && Get(t, HAD_FAILURE) == Bool(m.hadFailure)
      && Get(t, AUTHENTICATED_CHAIN_HASH) == HashBefore(env, m.dependencies, |m.dependencies|)
      && (TranscriptIdentityOk(env, t) <==> |m.dependencies| <= MAX_OPERATIONS)
  {
    hide Get, Normal, Sort, U, AllShaped, AllReplayShaped, Chain, HashBefore, Transcript;
    TranscriptField(env, m, now, 0);
    TranscriptField(env, m, now, 1);
    TranscriptField(env, m, now, 2);
    TranscriptField(env, m, now, 3);
    TranscriptField(env, m, now, 4);
    TranscriptField(env, m, now, 5);
    TranscriptField(env, m, now, 6);
    TranscriptField(env, m, now, 7);
    TranscriptField(env, m, now, 8);
    TranscriptField(env, m, now, 9);
    ChainHashesAreTexts(env, m.dependencies, |m.dependencies|);
    NormalAtoms(m, now, HashBefore(env, m.dependencies, |m.dependencies|));
    assert (now as real).Floor == now;
  }

  lemma ReplayReadBack(env: Setup, m: Memory)
    ensures var r := Normal(ReplayMaterial(env, m));
      && Get(r, ENTRIES) == Arr(NormalItems(m.replayEntries))
      && forall n: nat :: ReplayIdentityOk(env, r, n) <==> |m.replayEntries| <= n
  {
    hide U, Print, Sort, Lookup;
    NamesAreGood();
    var values := [Integer(1), Str(env.sessionId), Arr(m.replayEntries)];
    GetNormalRecord(REPLAY_KEYS, values, 0);
    GetNormalRecord(REPLAY_KEYS, values, 1);
    GetNormalRecord(REPLAY_KEYS, values, 2);
  }

  lemma RestoreEntriesAll(env: Setup, entries: seq<Json>, deps: seq<Json>)
    ensures var r := RestoreEntries(env, entries, deps);
      && (r.Success? <==> forall i :: 0 <= i < |entries| ==> ReplayEntryOk(env, entries[i], deps))
      && (r.Success? ==> r.value == entries)
  {
    if entries != [] {
      RestoreEntriesAll(env, entries[1..], deps);
      assert entries == [entries[0]] + entries[1..];
    }
  }
}
