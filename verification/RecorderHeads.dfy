/** What the head hash of the event log determines: the authenticated fields, and nothing else. */
module RecorderHeads {
  import opened Lists
  import opened Texts
  import opened Json
  import opened JsonLaws
  import opened CanonicalTheorems
  import opened Recorder
  import opened RecorderLaws
  import opened RecorderCrash
  import opened RecorderSafety

  // ---- the text of an event, cut at its operation ----

  /** The keys of an event in the order in which they are printed. */
  const EVENT_ORDER: seq<Text> :=
    [DOMAIN, OPERATION, OPERATION_KEY, PREVIOUS_EVENT_HASH, RESULT, SEQUENCE, SESSION_ID]

  lemma PrefixNotLess(a: Text, b: Text)
    requires a <= b
    ensures !Less(b, a)
  {
    if a != [] {
      PrefixNotLess(a[1..], b[1..]);
    }
  }

  lemma FirstUnits()
    ensures forall i :: 0 <= i < 7 ==> EVENT_ORDER[i] != []
    ensures forall i :: 0 <= i < 7 ==> EVENT_ORDER[i][0] == [0x64, 0x6F, 0x6F, 0x70, 0x72, 0x73, 0x73][i]
  {
  }

  lemma OrderIsSorted()
    ensures Sorted(EVENT_ORDER, Self)
  {
    var s := EVENT_ORDER;
    FirstUnits();
    PrefixNotLess(OPERATION, OPERATION_KEY);
    SequenceBeforeSession();
    hide U, Less;
    forall i, j | 0 <= i < j < |s| ensures !Less(s[j], s[i]) {
      FirstUnitOrders(s[i], s[j]);
    }
  }

  lemma FirstUnitOrders(a: Text, b: Text)
    requires a != [] && b != []
    ensures a[0] < b[0] ==> !Less(b, a)
  {
  }

  lemma SequenceBeforeSession()
    ensures !Less(SESSION_ID, SEQUENCE)
  {
    var a, b := SEQUENCE, SESSION_ID;
    assert a[0] == b[0] && a[1] == b[1] && a[2] == 0x71 && b[2] == 0x73;
    assert a[1..][0] == b[1..][0] && a[1..][1..][0] < b[1..][1..][0];
    FirstUnitOrders(a[1..][1..], b[1..][1..]);
  }

  function Swapped<T>(s: seq<T>, i: nat, j: nat): (r: seq<T>)
    requires i < j < |s|
    ensures multiset(r) == multiset(s)
    ensures |r| == |s| && r[i] == s[j] && r[j] == s[i]
    ensures forall k :: 0 <= k < |s| && k != i && k != j ==> r[k] == s[k]
  {
    s[i := s[j]][j := s[i]]
  }

  lemma SevenPermuted<T>(s: seq<T>, r: seq<T>)
    requires |s| == |r| == 7 && r[0] == s[0]
    requires r[1] == s[5] && r[2] == s[4] && r[3] == s[3] && r[4] == s[6] && r[5] == s[2] && r[6] == s[1]
    ensures multiset(s) == multiset(r)
  {
    hide Swapped;
    assert Swapped(Swapped(Swapped(Swapped(s, 1, 5), 2, 4), 4, 6), 5, 6) == r;
  }

  lemma KeysPermuted()
    ensures multiset(EVENT_KEYS) == multiset(EVENT_ORDER)
  {
    hide U;
    SevenPermuted(EVENT_KEYS, EVENT_ORDER);
  }

  lemma SortedTo(keys: seq<Text>, order: seq<Text>)
    requires multiset(keys) == multiset(order) && Sorted(order, Self)
    ensures Sort(keys, Self) == order
  {
    hide Less;
    SortSorts(keys, Self);
    SortedUnique(Sort(keys, Self), order, Self);
  }

  lemma EventKeysSorted(x: seq<Json>)
    requires |x| == 7
    ensures SortedKeys(Record(EVENT_KEYS, x).fields) == EVENT_ORDER
  {
    hide U, Less, Sort, Sorted;
    SameKeysAsEvent(Record(EVENT_KEYS, x).fields);
    OrderIsSorted();
    KeysPermuted();
    SortedTo(EVENT_KEYS, EVENT_ORDER);
  }

  lemma SameKeysAsEvent(fields: seq<Field>)
    requires |fields| == 7 && forall i :: 0 <= i < 7 ==> fields[i].key == EVENT_KEYS[i]
    ensures KeysOf(fields) == EVENT_KEYS
  {
    hide U;
  }

  /** What is printed after the operation of an event. */
  function Back(c: NumberCodec, x: seq<Json>): Text
    requires |x| == 7
  {
    EventHasKeys(x);
    [COMMA] + WireMembers(c, Record(EVENT_KEYS, x).fields, EVENT_ORDER[2..]) + [CLOSE_BRACE]
  }

  /** What is printed before it. */
  function Front(c: NumberCodec, domain: Json): Text {
    [OPEN_BRACE] + (Quote(DOMAIN) + [COLON] + Wire(c, domain)) + [COMMA] + (Quote(OPERATION) + [COLON])
  }

  lemma EventHasKeys(x: seq<Json>)
    requires |x| == 7
    ensures forall k | k in EVENT_ORDER :: HasKey(Record(EVENT_KEYS, x).fields, k)
  {
    hide U;
    var fields := Record(EVENT_KEYS, x).fields;
    assert fields[0].key == DOMAIN && fields[1].key == SESSION_ID && fields[2].key == SEQUENCE;
    assert fields[3].key == PREVIOUS_EVENT_HASH && fields[4].key == OPERATION_KEY && fields[5].key == OPERATION;
    assert fields[6].key == RESULT;
  }

  lemma EventValueAt(x: seq<Json>, i: nat)
    requires |x| == 7 && i < 7
    ensures var fields := Record(EVENT_KEYS, x).fields;
      HasKey(fields, EVENT_KEYS[i]) && fields[IndexOf(fields, EVENT_KEYS[i])].value == x[i]
  {
    NamesAreGood();
    GetRecord(EVENT_KEYS, x, i);
  }

  lemma WireSplits(c: NumberCodec, x: seq<Json>)
    requires |x| == 7
    ensures Wire(c, Record(EVENT_KEYS, x)) == Front(c, x[0]) + (Wire(c, x[5]) + Back(c, x))
  {
    hide U, Quote, SortedKeys, Record, WireMembers;
    var v := Record(EVENT_KEYS, x);
    EventKeysSorted(x);
    EventHasKeys(x);
    EventValueAt(x, 0);
    EventValueAt(x, 5);
    TwoMembers(c, v.fields, EVENT_ORDER);
    assert Wire(c, v) == [OPEN_BRACE] + WireMembers(c, v.fields, EVENT_ORDER) + [CLOSE_BRACE];
    SplitTexts(Quote(DOMAIN) + [COLON] + Wire(c, x[0]), Quote(OPERATION) + [COLON], Wire(c, x[5]),
               WireMembers(c, v.fields, EVENT_ORDER[2..]));
  }

  lemma TwoMembers(c: NumberCodec, fields: seq<Field>, keys: seq<Text>)
    requires |keys| > 2 && forall k | k in keys :: HasKey(fields, k)
    ensures WireMembers(c, fields, keys)
         == Quote(keys[0]) + [COLON] + Wire(c, fields[IndexOf(fields, keys[0])].value) + [COMMA]
            + (Quote(keys[1]) + [COLON] + Wire(c, fields[IndexOf(fields, keys[1])].value) + [COMMA]
               + WireMembers(c, fields, keys[2..]))
  {
    hide Quote, Wire, WireMembers;
    MembersStep(c, fields, keys);
    MembersStep(c, fields, keys[1..]);
    assert keys[1..][1..] == keys[2..] && keys[1..][0] == keys[1];
  }

  lemma MembersStep(c: NumberCodec, fields: seq<Field>, keys: seq<Text>)
    requires |keys| > 1 && forall k | k in keys :: HasKey(fields, k)
    ensures WireMembers(c, fields, keys)
         == Quote(keys[0]) + [COLON] + Wire(c, fields[IndexOf(fields, keys[0])].value) + [COMMA]
            + WireMembers(c, fields, keys[1..])
  {
    hide Quote, Wire;
  }

  lemma SplitTexts(domain: Text, key: Text, operation: Text, rest: Text)
    ensures [OPEN_BRACE] + (domain + [COMMA] + (key + operation + [COMMA] + rest)) + [CLOSE_BRACE]
         == [OPEN_BRACE] + domain + [COMMA] + key + (operation + ([COMMA] + rest + [CLOSE_BRACE]))
  {
    var a, b, t := [OPEN_BRACE] + domain + [COMMA], key + operation, [COMMA] + rest;
    Assoc([OPEN_BRACE], domain + [COMMA], key + operation + [COMMA] + rest);
    Assoc([OPEN_BRACE], domain, [COMMA]);
    Assoc(b, [COMMA], rest);
    Assoc(a, b + t, [CLOSE_BRACE]);
    Assoc(key, operation, t);
    Assoc(key, operation + t, [CLOSE_BRACE]);
    Assoc(operation, t, [CLOSE_BRACE]);
    Assoc(a, key, operation + (t + [CLOSE_BRACE]));
  }

  /** The rest of the event does not depend on the operation. */
  lemma BackIgnoresOperation(c: NumberCodec, x: seq<Json>, v: Json)
    requires |x| == 7
    ensures Back(c, x) == Back(c, x[5 := v])
  {
    OperationIsSecond();
    NamesAreGood();
    EventHasKeys(x);
    EventHasKeys(x[5 := v]);
    hide U, Quote, Wire;
    OtherMembers(c, Record(EVENT_KEYS, x).fields, Record(EVENT_KEYS, x[5 := v]).fields, EVENT_ORDER[2..]);
  }

  lemma OperationIsSecond()
    ensures OPERATION !in EVENT_ORDER[2..]
  {
    assert |OPERATION| == 9 && OPERATION[0] == 0x6F && SESSION_ID[0] == 0x73;
    assert EVENT_ORDER[2..] == [OPERATION_KEY, PREVIOUS_EVENT_HASH, RESULT, SEQUENCE, SESSION_ID];
    assert |OPERATION_KEY| == 12 && |PREVIOUS_EVENT_HASH| == 17 && |RESULT| == 6 && |SEQUENCE| == 8;
  }

  lemma {:induction false} OtherMembers(c: NumberCodec, f: seq<Field>, g: seq<Field>, keys: seq<Text>)
    requires |f| == |g| && forall i :: 0 <= i < |f| ==> f[i].key == g[i].key && (f[i].key != OPERATION ==> f[i] == g[i])
    requires OPERATION !in keys && (forall k | k in keys :: HasKey(f, k)) && (forall k | k in keys :: HasKey(g, k))
    ensures WireMembers(c, f, keys) == WireMembers(c, g, keys)
  {
    hide Wire, Quote, U;
    if keys != [] {
      SameIndex(f, g, keys[0]);
      OtherMembers(c, f, g, keys[1..]);
    }
  }

  lemma SameIndex(f: seq<Field>, g: seq<Field>, k: Text)
    requires |f| == |g| && (forall i :: 0 <= i < |f| ==> f[i].key == g[i].key) && HasKey(f, k) && HasKey(g, k)
    ensures IndexOf(f, k) == IndexOf(g, k)
  {
    if f[0].key != k {
      SameIndex(f[1..], g[1..], k);
    }
  }

  /** No value is printed with the first letter of the bare word undefined. */
  lemma FirstUnit(c: NumberCodec, v: Json)
    requires GoodCodec(c) && WellFormed(c, v) && Printable(v) && Defined(v)
    ensures Wire(c, v) != [] && Wire(c, v)[0] != 0x75
  {
    if v.Num? {
      ZeroIsDouble(c);
      assert NumberToken(PrintNumber(c, v.n));
    }
  }

  // ---- events with one text ----

  /** A value as it comes out of a file, or one that is missing. */
  ghost predicate FromFile(c: NumberCodec, v: Json) {
    v.Undefined? || (WellFormed(c, v) && Printable(v) && Normal(v) == v)
  }

  /** The values of an event whose operation may be missing. */
  ghost predicate EventLike(c: NumberCodec, x: seq<Json>) {
    |x| == 7 && forall i :: 0 <= i < 7 ==> FromFile(c, x[i]) && (i != 5 ==> !x[i].Undefined?)
  }

  lemma DefinedFromFile(c: NumberCodec, v: Json)
    requires GoodCodec(c) && FromFile(c, v) && !v.Undefined?
    ensures WellFormed(c, v) && Printable(v) && Defined(v) && Normal(v) == v
  {
    NormalIsPlain(c, v);
  }

  lemma SameTextsSameValues(c: NumberCodec, x: seq<Json>, y: seq<Json>)
    requires GoodCodec(c) && EventLike(c, x) && EventLike(c, y) && !x[5].Undefined? && !y[5].Undefined?
    requires Wire(c, Record(EVENT_KEYS, x)) == Wire(c, Record(EVENT_KEYS, y))
    ensures x == y
  {
    hide Wire, Print, Normal, WellFormed, Printable, Defined, U;
    NamesAreGood();
    ValuesPrint(c, x);
    ValuesPrint(c, y);
    ParsePrint(c, Record(EVENT_KEYS, x), []);
    ParsePrint(c, Record(EVENT_KEYS, y), []);
    forall i | 0 <= i < 7 ensures x[i] == y[i] {
      GetNormalRecord(EVENT_KEYS, x, i);
      GetNormalRecord(EVENT_KEYS, y, i);
    }
  }

  lemma ValuesPrint(c: NumberCodec, x: seq<Json>)
    requires GoodCodec(c) && EventLike(c, x) && !x[5].Undefined?
    ensures var v := Record(EVENT_KEYS, x); WellFormed(c, v) && Printable(v) && Wire(c, v) == Print(c, v)
  {
    hide Wire, Print, Normal, WellFormed, Printable, Defined, U;
    NamesAreGood();
    forall i | 0 <= i < 7 ensures WellFormed(c, x[i]) && Printable(x[i]) && Defined(x[i]) {
      DefinedFromFile(c, x[i]);
    }
    RecordIsPrintable(c, EVENT_KEYS, x);
    DefinedRecord(x);
    WireAgainstPrint(c, Record(EVENT_KEYS, x));
  }

  lemma DefinedRecord(x: seq<Json>)
    requires |x| == 7 && forall i :: 0 <= i < 7 ==> Defined(x[i])
    ensures Defined(Record(EVENT_KEYS, x))
  {
    var v := Record(EVENT_KEYS, x);
    forall f | f in v.fields ensures Defined(f.value) {
      var i :| 0 <= i < 7 && v.fields[i] == f;
    }
  }

  /** Two events with one text have the same values, whether an operation is missing or not. */
  lemma SameEventTexts(c: NumberCodec, x: seq<Json>, y: seq<Json>)
    requires GoodCodec(c) && EventLike(c, x) && EventLike(c, y) && x[0] == y[0]
    requires Wire(c, Record(EVENT_KEYS, x)) == Wire(c, Record(EVENT_KEYS, y))
    ensures x == y
  {
    hide Normal, WellFormed, Printable, U, Record, Back, Front;
    if !x[5].Undefined? && !y[5].Undefined? {
      SameTextsSameValues(c, x, y);
    } else {
      WireSplits(c, x);
      WireSplits(c, y);
      SameTail(Front(c, x[0]), Wire(c, x[5]) + Back(c, x), Wire(c, y[5]) + Back(c, y));
      if x[5].Undefined? && y[5].Undefined? {
        BothMissing(c, x, y);
      } else {
        OneMissing(c, if x[5].Undefined? then y[5] else x[5],
                   if x[5].Undefined? then Back(c, y) else Back(c, x),
                   if x[5].Undefined? then Back(c, x) else Back(c, y));
        assert false;
      }
    }
  }

  lemma SameTail(p: Text, a: Text, b: Text)
    requires p + a == p + b
    ensures a == b
  {
    assert (p + a)[|p|..] == a && (p + b)[|p|..] == b;
  }

  lemma OneMissing(c: NumberCodec, v: Json, after: Text, other: Text)
    requires GoodCodec(c) && FromFile(c, v) && !v.Undefined?
    ensures Wire(c, v) + after != Wire(c, Undefined) + other
  {
    DefinedFromFile(c, v);
    FirstUnit(c, v);
    assert Wire(c, Undefined) == U("undefined") && U("undefined")[0] == 0x75;
    assert (Wire(c, v) + after)[0] == Wire(c, v)[0];
    assert (Wire(c, Undefined) + other)[0] == 0x75;
  }

  lemma BothMissing(c: NumberCodec, x: seq<Json>, y: seq<Json>)
    requires GoodCodec(c) && EventLike(c, x) && EventLike(c, y) && x[0] == y[0] && x[5] == y[5] == Undefined
    requires Wire(c, x[5]) + Back(c, x) == Wire(c, y[5]) + Back(c, y)
    ensures x == y
  {
    hide Wire, Back, Front, U, Record;
    SameTail(Wire(c, Undefined), Back(c, x), Back(c, y));
    var x', y' := x[5 := Null], y[5 := Null];
    BackIgnoresOperation(c, x, Null);
    BackIgnoresOperation(c, y, Null);
    WireSplits(c, x');
    WireSplits(c, y');
    SameTextsSameValues(c, x', y');
    assert x == x'[5 := Undefined] && y == y'[5 := Undefined];
  }

  // ---- entries ----

  /** Entries of a chain as they come out of a file. */
  ghost predicate FromFiles(env: Setup, d: seq<Json>) {
    NormalItems(d) == d && forall a | a in d :: WellFormed(env.codec, a) && Printable(a)
  }

  lemma FieldOfNormal(env: Setup, v: Json, k: Text)
    requires WellFormed(env.codec, v) && Printable(v) && Normal(v) == v && Get(v, k) != Undefined
    ensures WellFormed(env.codec, Get(v, k)) && Printable(Get(v, k)) && Normal(Get(v, k)) == Get(v, k)
  {
    hide Normal;
    GetNormal(v, k);
    assert v.fields[IndexOf(v.fields, k)] in v.fields;
  }

  lemma EventOfEntry(env: Setup, e: Json, sequence: nat, previous: Json)
    requires GoodSetup(env) && EntryOk(env, e, sequence, previous) && previous.Str?
    requires WellFormed(env.codec, e) && Printable(e) && Normal(e) == e
    ensures EventLike(env.codec, EventValues(env, e)) && Event(env, e) == Record(EVENT_KEYS, EventValues(env, e))
  {
    hide U, Wire, Print, WellFormed, Printable, Normal;
    var x := EventValues(env, e);
    AtomsFromFile(env.codec);
    forall i | 0 <= i < 7 ensures FromFile(env.codec, x[i]) && (i != 5 ==> !x[i].Undefined?) {
      if i >= 2 && !x[i].Undefined? {
        var k := [SEQUENCE, PREVIOUS_EVENT_HASH, OPERATION_KEY, OPERATION, RESULT][i - 2];
        assert x[i] == Get(e, k);
        FieldOfNormal(env, e, k);
      }
    }
  }

  lemma AtomsFromFile(c: NumberCodec)
    ensures forall t :: FromFile(c, Str(t))
  {
  }

  ghost predicate SameFields(a: Json, b: Json) {
    forall k | k in ENTRY_KEYS :: Get(a, k) == Get(b, k)
  }

  ghost predicate SameAuthenticated(d: seq<Json>, e: seq<Json>) {
    |d| == |e| && forall i :: 0 <= i < |d| ==> SameFields(d[i], e[i])
  }

  lemma SameEventSameFields(env: Setup, a: Json, b: Json)
    requires EventValues(env, a) == EventValues(env, b) && Get(a, EVENT_HASH) == Get(b, EVENT_HASH)
    ensures SameFields(a, b)
  {
    hide Get, U;
    var x, y := EventValues(env, a), EventValues(env, b);
    assert x[2] == y[2] && x[3] == y[3] && x[4] == y[4] && x[5] == y[5] && x[6] == y[6];
  }

  // ---- chains with one head ----

  lemma HeadIsMac(env: Setup, d: seq<Json>) returns (x: Text)
    requires Chain(env, d) && d != []
    ensures HashBefore(env, d, |d|) == Str(env.mac(x)) && HashBefore(env, [], 0) == Str(env.eventChainSeedHash)
  {
    hide Get, Event, Wire;
    var last := |d| - 1;
    assert EntryOk(env, d[last], |d|, HashBefore(env, d, last));
    x := Wire(env.codec, Event(env, d[last]));
  }

  lemma PrefixHash(env: Setup, d: seq<Json>, n: nat)
    requires n <= |d|
    ensures HashBefore(env, d[..n], n) == HashBefore(env, d, n)
  {
  }

  lemma LastEvent(env: Setup, d: seq<Json>)
    requires GoodSetup(env) && Chain(env, d) && FromFiles(env, d) && d != []
    ensures var i := |d| - 1; var v := d[i];
      && EventLike(env.codec, EventValues(env, v)) && Event(env, v) == Record(EVENT_KEYS, EventValues(env, v))
      && Get(v, EVENT_HASH) == EventHash(env, v) == HashBefore(env, d, |d|)
      && Get(v, SEQUENCE) == Integer(|d|) && Get(v, PREVIOUS_EVENT_HASH) == HashBefore(env, d, i)
  {
    hide Get, Event, EventValues, Wire, Normal, WellFormed, Printable, EventLike, EntryOk, EventHash, Record, U;
    var i := |d| - 1;
    assert EntryOk(env, d[i], i + 1, HashBefore(env, d, i));
    ChainHashesAreTexts(env, d, i);
    assert NormalItems(d)[i] == Normal(d[i]) && d[i] in d;
    EventOfEntry(env, d[i], i + 1, HashBefore(env, d, i));
    EntryFacts(env, d[i], i + 1, HashBefore(env, d, i));
  }

  lemma EntryFacts(env: Setup, e: Json, sequence: nat, previous: Json)
    requires EntryOk(env, e, sequence, previous)
    ensures Get(e, SEQUENCE) == Integer(sequence) && Get(e, PREVIOUS_EVENT_HASH) == previous
    ensures Get(e, EVENT_HASH) == EventHash(env, e)
  {
    hide Get, EventHash, U, Print, Printable;
  }

  lemma LastEntriesAgree(env: Setup, d: seq<Json>, e: seq<Json>) returns (x: Text, y: Text)
    requires GoodSetup(env) && Chain(env, d) && Chain(env, e) && FromFiles(env, d) && FromFiles(env, e)
    requires d != [] && e != [] && HashBefore(env, d, |d|) == HashBefore(env, e, |e|)
    ensures !Collision(env, x, y) ==>
      |d| == |e| && SameFields(d[|d| - 1], e[|e| - 1])
      && HashBefore(env, d[..|d| - 1], |d| - 1) == HashBefore(env, e[..|e| - 1], |e| - 1)
  {
    hide Get, Wire, Chain, FromFiles, EventLike, HashBefore, Record, U;
    var i, j := |d| - 1, |e| - 1;
    x, y := Wire(env.codec, Event(env, d[i])), Wire(env.codec, Event(env, e[j]));
    LastEvent(env, d);
    LastEvent(env, e);
    if x == y {
      SameEventTexts(env.codec, EventValues(env, d[i]), EventValues(env, e[j]));
      SameEventSameFields(env, d[i], e[j]);
      assert EventValues(env, d[i])[2] == EventValues(env, e[j])[2];
      assert EventValues(env, d[i])[3] == EventValues(env, e[j])[3];
      PrefixHash(env, d, i);
      PrefixHash(env, e, j);
    }
  }

  lemma FromFilesPrefix(env: Setup, d: seq<Json>, n: nat)
    requires Chain(env, d) && FromFiles(env, d) && n <= |d|
    ensures Chain(env, d[..n]) && FromFiles(env, d[..n])
  {
    hide Chain, NormalItems, WellFormed, Printable;
    ChainPrefix(env, d, n);
    NormalTake(d, n);
  }

  lemma NothingToAuthenticate(d: seq<Json>, e: seq<Json>)
    requires d == [] && e == []
    ensures SameAuthenticated(d, e)
  {
  }

  lemma AuthenticatedGrows(d: seq<Json>, e: seq<Json>)
    requires |d| == |e| > 0 && SameAuthenticated(d[..|d| - 1], e[..|e| - 1])
    requires SameFields(d[|d| - 1], e[|e| - 1])
    ensures SameAuthenticated(d, e)
  {
    hide SameFields;
    forall i | 0 <= i < |d| ensures SameFields(d[i], e[i]) {
      if i < |d| - 1 {
        assert SameFields(d[..|d| - 1][i], e[..|e| - 1][i]);
      }
    }
  }

  /** Chains with the same head hash carry the same authenticated fields, entry by entry; otherwise
      two texts collide, or a text hashes to the seed. */
  lemma {:induction false} HeadDeterminesChain(env: Setup, d: seq<Json>, e: seq<Json>) returns (x: Text, y: Text)
    requires GoodSetup(env) && Chain(env, d) && Chain(env, e) && FromFiles(env, d) && FromFiles(env, e)
    requires HashBefore(env, d, |d|) == HashBefore(env, e, |e|)
    ensures Collision(env, x, y) || env.mac(x) == env.eventChainSeedHash || SameAuthenticated(d, e)
    decreases |d| + |e|
  {
    hide Chain, HashBefore, FromFiles, SameAuthenticated, Collision;
    x, y := [], [];
    if d == [] && e == [] {
      NothingToAuthenticate(d, e);
    } else if d == [] || e == [] {
      x := HeadIsMac(env, if d == [] then e else d);
    } else {
      x, y := LastEntriesAgree(env, d, e);
      if !Collision(env, x, y) {
        var i := |d| - 1;
        FromFilesPrefix(env, d, i);
        FromFilesPrefix(env, e, i);
        x, y := HeadDeterminesChain(env, d[..i], e[..i]);
        if SameAuthenticated(d[..i], e[..i]) {
          AuthenticatedGrows(d, e);
        }
      }
    }
  }

  // ---- files with one head ----

  /** What a resume restores is a valid chain of read-back entries. */
  lemma ResumedEntries(env: Setup, f: Files)
    requires GoodSetup(env) && Resume(env, f).Success?
    ensures Chain(env, Resume(env, f).value.dependencies) && FromFiles(env, Resume(env, f).value.dependencies)
  {
    hide Get, ParseCanonicalState, EntryOk, Complete, U, RestoreEntries, ReplayIdentityOk, SizeOk, Print, Printable,
      Normal, WellFormed;
    var d := Resume(env, f).value.dependencies;
    AcceptsExactlyCanonical(env.codec, f.transcript);
    var t := ParseCanonicalState(env.codec, f.transcript).value;
    assert Get(t, DEPENDENCIES) == Arr(d) && Chain(env, d);
    FieldOfNormal(env, t, DEPENDENCIES);
    ArrayParts(env.codec, d);
  }

  lemma ArrayParts(c: NumberCodec, items: seq<Json>)
    requires WellFormed(c, Arr(items)) && Printable(Arr(items)) && Normal(Arr(items)) == Arr(items)
    ensures NormalItems(items) == items && forall x | x in items :: WellFormed(c, x) && Printable(x)
  {
  }

  /** The entries agree on the keys that are not authenticated. */
  ghost predicate SameOthers(d: seq<Json>, e: seq<Json>) {
    |d| == |e| && forall i, k :: 0 <= i < |d| && k !in ENTRY_KEYS ==> Get(d[i], k) == Get(e[i], k)
  }

  /** Entries that hold only the six keys of an entry. */
  ghost predicate OnlyEntryKeys(d: seq<Json>) {
    forall a | a in d :: forall k :: k !in ENTRY_KEYS ==> Get(a, k) == Undefined
  }

  /** Two objects out of a file that answer every key alike are one object. */
  lemma SameKeysSameObject(c: NumberCodec, a: Json, b: Json)
    requires GoodCodec(c) && a.Obj? && b.Obj?
    requires WellFormed(c, a) && WellFormed(c, b) && Printable(a) && Printable(b) && Normal(a) == a && Normal(b) == b
    requires forall k :: Get(a, k) == Get(b, k)
    ensures a == b
  {
    hide WellFormed, Printable;
    KeyIffDefined(c, a);
    KeyIffDefined(c, b);
    forall k ensures HasKey(a.fields, k) <==> HasKey(b.fields, k) {
      assert Get(a, k) == Get(b, k);
    }
    WellFormedKeys(c, a);
    WellFormedKeys(c, b);
    SameKeysSorted(a.fields, b.fields);
    SameAnswers(a, b);
  }

  lemma SameAnswers(a: Json, b: Json)
    requires a.Obj? && b.Obj? && SortedKeys(a.fields) == SortedKeys(b.fields) && forall k :: Get(a, k) == Get(b, k)
    ensures Normal(a) == Normal(b)
  {
    hide SortedKeys, IndexOf;
    SortedKeysAreKeys(a.fields);
    SortedKeysAreKeys(b.fields);
    var keys := SortedKeys(a.fields);
    forall i | 0 <= i < |keys|
      ensures NormalMembers(a.fields, keys)[i] == NormalMembers(b.fields, keys)[i]
    {
      assert Get(a, keys[i]) == Get(b, keys[i]);
    }
  }

  lemma WellFormedKeys(c: NumberCodec, a: Json)
    requires a.Obj? && WellFormed(c, a)
    ensures DistinctKeys(a.fields)
  {
  }

  lemma KeyIffDefined(c: NumberCodec, a: Json)
    requires GoodCodec(c) && a.Obj? && WellFormed(c, a) && Printable(a) && Normal(a) == a
    ensures forall k :: HasKey(a.fields, k) <==> Get(a, k) != Undefined
  {
    NormalIsPlain(c, a);
    forall k | HasKey(a.fields, k) ensures Get(a, k) != Undefined {
      assert a.fields[IndexOf(a.fields, k)] in a.fields;
    }
  }

  lemma EntriesAreObjects(env: Setup, d: seq<Json>, i: nat)
    requires Chain(env, d) && i < |d|
    ensures d[i].Obj?
  {
    assert EntryOk(env, d[i], i + 1, HashBefore(env, d, i));
  }

  /** Chains with the same authenticated fields are the same exactly when they agree on the others. */
  lemma SameListsIff(env: Setup, d: seq<Json>, e: seq<Json>)
    requires GoodSetup(env) && Chain(env, d) && Chain(env, e) && FromFiles(env, d) && FromFiles(env, e)
    requires SameAuthenticated(d, e)
    ensures d == e <==> SameOthers(d, e)
  {
    hide Chain, Get, WellFormed, Printable, Normal;
    if SameOthers(d, e) {
      forall i | 0 <= i < |d| ensures d[i] == e[i] {
        EntriesAreObjects(env, d, i);
        EntriesAreObjects(env, e, i);
        assert d[i] in d && e[i] in e && NormalItems(d)[i] == Normal(d[i]) && NormalItems(e)[i] == Normal(e[i]);
        assert SameFields(d[i], e[i]);
        forall k ensures Get(d[i], k) == Get(e[i], k) {
          if k !in ENTRY_KEYS {
            assert Get(d[i], k) == Get(e[i], k);
          }
        }
        SameKeysSameObject(env.codec, d[i], e[i]);
      }
    }
  }

  /** Two pairs of state files that resume with the same head hash: two texts collide, or a text hashes to the seed, or
      the restored entries have the same authenticated fields one by one, and the lists are then equal exactly when the
      entries agree on their other keys, which they do when they have none. */
  lemma SameHeadSameChain(env: Setup, f: Files, g: Files) returns (x: Text, y: Text)
    requires GoodSetup(env) && Resume(env, f).Success? && Resume(env, g).Success?
    requires var d, e := Resume(env, f).value.dependencies, Resume(env, g).value.dependencies;
      HashBefore(env, d, |d|) == HashBefore(env, e, |e|)
    ensures var d, e := Resume(env, f).value.dependencies, Resume(env, g).value.dependencies;
      || Collision(env, x, y) || env.mac(x) == env.eventChainSeedHash
      || (SameAuthenticated(d, e) && (d == e <==> SameOthers(d, e))
          && (OnlyEntryKeys(d) && OnlyEntryKeys(e) ==> d == e))
  {
    hide Resume, Get, Chain, HashBefore, FromFiles, Collision, SameAuthenticated;
    var d, e := Resume(env, f).value.dependencies, Resume(env, g).value.dependencies;
    ResumedEntries(env, f);
    ResumedEntries(env, g);
    x, y := HeadDeterminesChain(env, d, e);
    if SameAuthenticated(d, e) {
      SameListsIff(env, d, e);
      NoOthersAgree(d, e);
    }
  }

  lemma NoOthersAgree(d: seq<Json>, e: seq<Json>)
    requires SameAuthenticated(d, e)
    ensures OnlyEntryKeys(d) && OnlyEntryKeys(e) ==> SameOthers(d, e)
  {
    hide Get, SameFields;
    if OnlyEntryKeys(d) && OnlyEntryKeys(e) {
      forall i, k | 0 <= i < |d| && k !in ENTRY_KEYS ensures Get(d[i], k) == Get(e[i], k) {
        assert d[i] in d && e[i] in e;
      }
    }
  }

  // ---- one head, two lists ----

  /** The memory with one more key in its i-th entry. */
  function WithExtra(m: Memory, i: nat, k: Text, v: Json): Memory
    requires i < |m.dependencies| && m.dependencies[i].Obj?
  {
    m.(dependencies := m.dependencies[i := Obj(SetField(m.dependencies[i].fields, k, v))])
  }

  lemma ExtraSameFields(e: Json, k: Text, v: Json)
    requires e.Obj? && DistinctKeys(e.fields) && k !in ENTRY_KEYS
    ensures SameFields(Obj(SetField(e.fields, k, v)), e)
  {
    hide Get, U, SetField;
    forall other | other in ENTRY_KEYS ensures Get(Obj(SetField(e.fields, k, v)), other) == Get(e, other) {
      SetFieldGet(e.fields, k, v, other);
    }
  }

  lemma SameFieldsSameEntry(env: Setup, a: Json, b: Json, sequence: nat, previous: Json)
    requires SameFields(a, b) && EntryOk(env, b, sequence, previous)
    ensures EntryOk(env, a, sequence, previous)
  {
    hide Get, Wire, Print, U, Printable;
    assert SEQUENCE in ENTRY_KEYS && PREVIOUS_EVENT_HASH in ENTRY_KEYS && OPERATION_KEY in ENTRY_KEYS;
    assert OPERATION in ENTRY_KEYS && RESULT in ENTRY_KEYS && EVENT_HASH in ENTRY_KEYS;
  }

  /** The memory with one more key can be written as well. */
  lemma ExtraIsWritable(env: Setup, m: Memory, now: nat, i: nat, k: Text, v: Json)
    requires Writable(env, m, now) && i < |m.dependencies| && m.dependencies[i].Obj?
    requires k !in ENTRY_KEYS && WellFormed(env.codec, v) && Printable(v)
    ensures Writable(env, WithExtra(m, i, k, v), now)
    ensures forall j :: 0 <= j < |m.dependencies| ==>
      SameFields(WithExtra(m, i, k, v).dependencies[j], m.dependencies[j])
  {
    hide Get, EntryOk, WellFormed, Printable, Shaped, U, SameFields, HashBefore, SetField;
    var d, e := m.dependencies, WithExtra(m, i, k, v).dependencies;
    ShapedParts(env, d[i]);
    ExtraSameFields(d[i], k, v);
    ExtraIsShaped(env, d[i], k, v);
    forall j | 0 <= j < |d| ensures SameFields(e[j], d[j]) && Shaped(env, e[j]) && Printable(e[j]) {
      if j != i {
        FieldsOfItself(d[j]);
      }
    }
    SameFieldsSameChain(env, d, e);
  }

  lemma FieldsOfItself(e: Json)
    ensures SameFields(e, e)
  {
  }

  lemma SameFieldsSameChain(env: Setup, d: seq<Json>, e: seq<Json>)
    requires Chain(env, d) && |d| == |e| && forall j :: 0 <= j < |d| ==> SameFields(e[j], d[j])
    ensures Chain(env, e)
  {
    hide EntryOk, SameFields, HashBefore;
    forall j | 0 <= j < |e| ensures EntryOk(env, e[j], j + 1, HashBefore(env, e, j)) {
      SameHashBefore(env, d, e, j);
      assert EntryOk(env, d[j], j + 1, HashBefore(env, d, j));
      SameFieldsSameEntry(env, e[j], d[j], j + 1, HashBefore(env, d, j));
    }
  }

  lemma ShapedParts(env: Setup, e: Json)
    requires Shaped(env, e)
    ensures e.Obj? && DistinctKeys(e.fields)
  {
  }

  lemma SameHashBefore(env: Setup, d: seq<Json>, e: seq<Json>, j: nat)
    requires |d| == |e| && j <= |d| && forall i :: 0 <= i < |d| ==> SameFields(e[i], d[i])
    ensures HashBefore(env, e, j) == HashBefore(env, d, j)
  {
    hide Get, U;
    if j > 0 {
      assert SameFields(e[j - 1], d[j - 1]) && EVENT_HASH in ENTRY_KEYS;
    }
  }

  lemma ExtraIsShaped(env: Setup, e: Json, k: Text, v: Json)
    requires Shaped(env, e) && Printable(e) && WellFormed(env.codec, v) && Printable(v)
    ensures Shaped(env, Obj(SetField(e.fields, k, v))) && Printable(Obj(SetField(e.fields, k, v)))
  {
    hide U, SetField;
    var fields := SetField(e.fields, k, v);
    SetFieldKeys(e.fields, k, v);
    FieldsAreGood(env.codec, e.fields, fields, k, v);
    forall other | other in ENTRY_KEYS ensures HasKey(fields, other) {
      KeepsKey(e.fields, k, v, other);
    }
  }

  lemma FieldsAreGood(c: NumberCodec, fields: seq<Field>, more: seq<Field>, k: Text, v: Json)
    requires forall f | f in more :: f in fields || f == Field(k, v)
    requires DistinctKeys(more) && WellFormed(c, Obj(fields)) && WellFormed(c, v)
    requires Printable(Obj(fields)) && Printable(v)
    ensures WellFormed(c, Obj(more)) && Printable(Obj(more))
  {
    forall f | f in more ensures WellFormed(c, f.value) && Printable(f.value) {
      assert f in Obj(fields).fields || f == Field(k, v);
    }
  }

  lemma KeepsKey(fields: seq<Field>, k: Text, v: Json, other: Text)
    requires HasKey(fields, other)
    ensures HasKey(SetField(fields, k, v), other)
  {
    var i :| 0 <= i < |fields| && fields[i].key == other;
    assert SetField(fields, k, v)[i].key == other;
  }

  /** Take any two state files that a flush wrote and that resume, and write them once more with one more key in one
      entry: unless the transcript has grown too large, these files resume too, with the same head hash, and restore
      another list. */
  lemma OneHeadTwoLists(env: Setup, m: Memory, now: nat, f: Files, g: Files, i: nat, k: Text, v: Json)
    requires FilesOf(env, m, m, now, f) && Resume(env, f).Success?
    requires i < |m.dependencies| && m.dependencies[i].Obj? && !HasKey(m.dependencies[i].fields, k)
    requires k !in ENTRY_KEYS && WellFormed(env.codec, v) && Printable(v)
    requires FilesOf(env, WithExtra(m, i, k, v), WithExtra(m, i, k, v), now, g) && SizeOk(g.transcript)
    ensures Resume(env, g).Success?
    ensures var d, e := Resume(env, f).value.dependencies, Resume(env, g).value.dependencies;
      HashBefore(env, d, |d|) == HashBefore(env, e, |e|) && d != e
  {
    hide Get, Resume, Normal, Chain, SizeOk, Shaped, Printable, WellFormed, EventHash, Complete, ReplayEntryOk,
      HashBefore, ReplayText, TranscriptText, U, ReplayMaterial, Transcript, SameFields, SetField, HasKey;
    var n := WithExtra(m, i, k, v);
    var d, e := m.dependencies, n.dependencies;
    ExtraIsWritable(env, m, now, i, k, v);
    ResumeFiles(env, m, m, now, f);
    ResumeFiles(env, n, n, now, g);
    SameReplayText(env, m, n);
    ChainSurvives(env, d);
    ChainSurvives(env, e);
    HashesSurvive(env, d, |d|);
    SameHashBefore(env, d, e, |d|);
    forall j | 0 <= j < |e|
      ensures EventHash(env, Normal(e[j])) == EventHash(env, e[j])
      ensures Complete(NormalItems(e)[j]) == Complete(NormalItems(d)[j])
      ensures SameFields(NormalItems(e)[j], NormalItems(d)[j])
    {
      NormalSameFields(env, e[j], d[j]);
      SameFieldsSameChecks(env, e[j], d[j]);
      SameFieldsSameChecks(env, Normal(e[j]), Normal(d[j]));
    }
    HashesSurvive(env, e, |e|);
    forall j | 0 <= j < |n.replayEntries| ensures ReplayEntryOk(env, NormalItems(n.replayEntries)[j], NormalItems(e)) {
      StillJustified(env, NormalItems(m.replayEntries)[j], NormalItems(d), NormalItems(e));
    }
    ExtraShows(env, d[i], k, v);
  }

  lemma SameReplayText(env: Setup, m: Memory, n: Memory)
    requires m.replayEntries == n.replayEntries
    requires Printable(ReplayMaterial(env, m)) && Printable(ReplayMaterial(env, n))
    ensures ReplayText(env, m) == ReplayText(env, n)
  {
    hide U, Print;
  }

  lemma NormalSameFields(env: Setup, a: Json, b: Json)
    requires Shaped(env, a) && Shaped(env, b) && SameFields(a, b)
    ensures SameFields(Normal(a), Normal(b))
  {
    hide Get, Normal, Shaped, U;
    forall k | k in ENTRY_KEYS ensures Get(Normal(a), k) == Get(Normal(b), k) {
      EntryGetNormal(env, a, k);
      EntryGetNormal(env, b, k);
      assert Get(a, k) == Get(b, k);
    }
  }

  lemma EntryGetNormal(env: Setup, e: Json, k: Text)
    requires Shaped(env, e) && k in ENTRY_KEYS
    ensures Get(Normal(e), k) == Normal(Get(e, k))
  {
    hide Get, U;
    EntryGet(env, e, k);
  }

  lemma SameFieldsSameChecks(env: Setup, a: Json, b: Json)
    requires SameFields(a, b)
    ensures EventHash(env, a) == EventHash(env, b) && Complete(a) == Complete(b)
    ensures forall entry :: Justifies(env, a, entry) == Justifies(env, b, entry)
  {
    hide Get, U, Wire;
    assert SEQUENCE in ENTRY_KEYS && PREVIOUS_EVENT_HASH in ENTRY_KEYS && OPERATION_KEY in ENTRY_KEYS;
    assert OPERATION in ENTRY_KEYS && RESULT in ENTRY_KEYS;
  }

  lemma StillJustified(env: Setup, entry: Json, d: seq<Json>, e: seq<Json>)
    requires ReplayEntryOk(env, entry, d) && |d| == |e| && forall j :: 0 <= j < |d| ==> SameFields(e[j], d[j])
    ensures ReplayEntryOk(env, entry, e)
  {
    hide Get, Justifies, ReplayEntryShape, SameFields;
    var j :| 0 <= j < |d| && Justifies(env, d[j], entry);
    SameFieldsSameChecks(env, e[j], d[j]);
    assert Justifies(env, e[j], entry);
  }

  lemma ExtraShows(env: Setup, e: Json, k: Text, v: Json)
    requires Shaped(env, e) && !HasKey(e.fields, k)
    ensures Normal(Obj(SetField(e.fields, k, v))) != Normal(e)
  {
    hide Normal, SetField, U;
    SetFieldKeys(e.fields, k, v);
    SetFieldHasKey(e.fields, k, v);
    LookupNormal(e.fields, k);
    LookupNormal(SetField(e.fields, k, v), k);
  }

  lemma SetFieldHasKey(fields: seq<Field>, k: Text, v: Json)
    ensures HasKey(SetField(fields, k, v), k)
  {
    var r := SetField(fields, k, v);
    if HasKey(fields, k) {
      assert r[IndexOf(fields, k)].key == k;
    } else {
      assert r[|fields|].key == k;
    }
  }
}
