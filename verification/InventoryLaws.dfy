/** The inventory keeps every entry once, pairs as many renames as it can, and does not depend on
    the order in which git lists the entries. */
module InventoryLaws {
  import opened Options
  import opened Lists
  import opened Texts
  import opened Inventory

  // ---- git's raw output is read back ----

  function JoinTokens(tokens: seq<Text>): Text {
    if tokens == [] then [] else tokens[0] + ([0] + JoinTokens(tokens[1..]))
  }

  predicate Free(t: Text, u: Unit) {
    u !in t
  }

  lemma {:induction false} TokenThen(t: Text, rest: Text)
    requires Free(t, 0)
    ensures Tokens(t + ([0] + rest)) == [t] + Tokens(rest)
  {
    if t == [] {
      assert ([0] + rest)[1..] == rest;
      assert t + ([0] + rest) == [0] + rest;
    } else {
      TokenThen(t[1..], rest);
      assert (t + ([0] + rest))[1..] == t[1..] + ([0] + rest);
      assert [t[0]] + t[1..] == t;
    }
  }

  lemma {:induction false} TokensOfJoin(tokens: seq<Text>)
    requires forall t | t in tokens :: Free(t, 0)
    ensures Tokens(JoinTokens(tokens)) == tokens && Terminated(JoinTokens(tokens))
  {
    if tokens != [] {
      TokensOfJoin(tokens[1..]);
      TokenThen(tokens[0], JoinTokens(tokens[1..]));
      assert tokens == [tokens[0]] + tokens[1..];
    }
  }

  function StatusLetter(s: Status): Text {
    match s
    case Added => U("A")
    case Deleted => U("D")
    case Modified => U("M")
    case TypeChanged => U("T")
    case Unmerged => U("U")
  }

  function Line(e: RawEntry): Text {
    ([COLON] + e.beforeMode)
    + ([SPACE] + (e.afterMode + ([SPACE] + (e.beforeOid
       + ([SPACE] + (e.afterOid + ([SPACE] + StatusLetter(e.status))))))))
  }

  ghost predicate GitEntry(e: RawEntry) {
    && Digits(e.beforeMode, 6) && Digits(e.afterMode, 6) && Oid(e.beforeOid) && Oid(e.afterOid)
    && e.path != [] && Free(e.path, 0)
  }

  function RenderRaw(entries: seq<RawEntry>): seq<Text> {
    if entries == [] then [] else [Line(entries[0]), entries[0].path] + RenderRaw(entries[1..])
  }

  lemma {:induction false} SplitThen(t: Text, separator: Unit, rest: Text)
    requires Free(t, separator)
    ensures Split(t + ([separator] + rest), separator) == [t] + Split(rest, separator)
  {
    if t == [] {
      assert ([separator] + rest)[1..] == rest;
      assert t + ([separator] + rest) == [separator] + rest;
    } else {
      SplitThen(t[1..], separator, rest);
      assert (t + ([separator] + rest))[1..] == t[1..] + ([separator] + rest);
      assert [t[0]] + t[1..] == t;
    }
  }

  lemma {:induction false} SplitOne(t: Text, separator: Unit)
    requires Free(t, separator)
    ensures Split(t, separator) == [t]
  {
    if t != [] {
      SplitOne(t[1..], separator);
      assert [t[0]] + t[1..] == t;
    }
  }

  lemma StatusRead(s: Status)
    ensures ReadStatus(StatusLetter(s)) == Some(s) && Free(StatusLetter(s), SPACE) && Free(StatusLetter(s), 0)
  {
    assert U("A")[0] == 0x41 && U("D")[0] == 0x44 && U("M")[0] == 0x4D && U("T")[0] == 0x54 && U("U")[0] == 0x55;
  }

  lemma LineSplits(e: RawEntry)
    requires GitEntry(e)
    ensures Split(Line(e), SPACE)
         == [[COLON] + e.beforeMode] + ([e.afterMode] + ([e.beforeOid] + ([e.afterOid] + [StatusLetter(e.status)])))
    ensures Free(Line(e), 0)
  {
    hide Split, StatusLetter;
    StatusRead(e.status);
    var t3 := e.afterOid + ([SPACE] + StatusLetter(e.status));
    var t2 := e.beforeOid + ([SPACE] + t3);
    SplitOne(StatusLetter(e.status), SPACE);
    SplitThen(e.afterOid, SPACE, StatusLetter(e.status));
    SplitThen(e.beforeOid, SPACE, t3);
    SplitThen(e.afterMode, SPACE, t2);
    SplitThen([COLON] + e.beforeMode, SPACE, e.afterMode + ([SPACE] + t2));
  }

  lemma EntryReadBack(e: RawEntry)
    requires GitEntry(e)
    ensures ParseEntry(Line(e), e.path) == Some(e)
  {
    hide Split, StatusLetter, Line, ReadStatus, Hex, Digits;
    LineSplits(e);
    StatusRead(e.status);
    var parts := Split(Line(e), SPACE);
    assert parts[0] == [COLON] + e.beforeMode && parts[0][1..] == e.beforeMode;
    assert parts[1] == e.afterMode && parts[2] == e.beforeOid && parts[3] == e.afterOid;
    assert parts[4] == StatusLetter(e.status);
  }

  /** Reading git's raw diff gives back exactly the entries it was written from. */
  lemma {:induction false} RawReadBack(entries: seq<RawEntry>)
    requires forall e | e in entries :: GitEntry(e)
    ensures ParseRawInventory(JoinTokens(RenderRaw(entries))) == Some(entries)
  {
    TokensReadBack(entries);
    TokensOfJoin(RenderRaw(entries));
  }

  // ---- and nothing else is read ----

  function JoinBy(parts: seq<Text>, separator: Unit): Text
    requires parts != []
  {
    if |parts| == 1 then parts[0] else parts[0] + ([separator] + JoinBy(parts[1..], separator))
  }

  lemma {:induction false} SplitJoins(t: Text, separator: Unit)
    ensures JoinBy(Split(t, separator), separator) == t
  {
    if t != [] {
      SplitJoins(t[1..], separator);
      var rest := Split(t[1..], separator);
      if t[0] == separator {
        assert ([[]] + rest)[1..] == rest;
      } else {
        assert ([[t[0]] + rest[0]] + rest[1..])[1..] == rest[1..];
      }
      assert t == [t[0]] + t[1..];
    }
  }

  lemma {:induction false} TokensJoin(raw: Text)
    requires Terminated(raw)
    ensures JoinTokens(Tokens(raw)) == raw && forall t | t in Tokens(raw) :: Free(t, 0)
  {
    if raw != [] {
      var tail := raw[1..];
      TokensJoin(tail);
      var rest := Tokens(tail);
      assert raw == [raw[0]] + tail;
      if raw[0] == 0 {
        assert ([[]] + rest)[1..] == rest;
      } else {
        assert tail != [];
        NotEmptyTokens(tail);
        assert ([[raw[0]] + rest[0]] + rest[1..])[1..] == rest[1..];
        assert rest[0] in rest && Free([raw[0]] + rest[0], 0);
      }
    }
  }

  lemma NotEmptyTokens(raw: Text)
    requires raw != [] && Terminated(raw)
    ensures Tokens(raw) != []
  {
    if raw[0] != 0 {
      NotEmptyTokens(raw[1..]);
    }
  }

  lemma LetterOfStatus(t: Text)
    ensures ReadStatus(t).Some? ==> t == StatusLetter(ReadStatus(t).value)
  {
    hide U;
  }

  lemma EntryIsRendered(line: Text, path: Text)
    requires ParseEntry(line, path).Some? && Free(path, 0)
    ensures var e := ParseEntry(line, path).value; GitEntry(e) && line == Line(e) && path == e.path
  {
    hide Split, ReadStatus, StatusLetter, Hex, Digits, JoinBy;
    var parts := Split(line, SPACE);
    SplitJoins(line, SPACE);
    LetterOfStatus(parts[4]);
    FiveParts(parts, SPACE);
    assert parts[0] == [COLON] + parts[0][1..];
  }

  lemma FiveParts(parts: seq<Text>, separator: Unit)
    requires |parts| == 5
    ensures JoinBy(parts, separator)
         == parts[0] + ([separator] + (parts[1] + ([separator] + (parts[2]
            + ([separator] + (parts[3] + ([separator] + parts[4])))))))
  {
    assert parts[1..][1..] == parts[2..] && parts[2..][1..] == parts[3..] && parts[3..][1..] == parts[4..];
    assert JoinBy(parts[4..], separator) == parts[4];
    assert JoinBy(parts[3..], separator) == parts[3] + ([separator] + parts[4]);
    assert JoinBy(parts[2..], separator) == parts[2] + ([separator] + JoinBy(parts[3..], separator));
    assert JoinBy(parts[1..], separator) == parts[1] + ([separator] + JoinBy(parts[2..], separator));
  }

  lemma {:induction false} TokensAreRendered(tokens: seq<Text>)
    requires ParseTokens(tokens).Some? && forall t | t in tokens :: Free(t, 0)
    ensures tokens == RenderRaw(ParseTokens(tokens).value)
    ensures forall e | e in ParseTokens(tokens).value :: GitEntry(e)
  {
    hide ParseEntry, Line, GitEntry;
    if tokens != [] {
      EntryIsRendered(tokens[0], tokens[1]);
      TokensAreRendered(tokens[2..]);
      var entries := ParseTokens(tokens).value;
      assert entries == [entries[0]] + entries[1..] && tokens == [tokens[0], tokens[1]] + tokens[2..];
    }
  }

  /** Bytes are read as entries if and only if they are what git writes for those entries. */
  lemma RawAcceptedIff(raw: Text, entries: seq<RawEntry>)
    ensures ParseRawInventory(raw) == Some(entries) <==>
      raw == JoinTokens(RenderRaw(entries)) && forall e | e in entries :: GitEntry(e)
  {
    hide Tokens, ParseTokens, RenderRaw, JoinTokens, GitEntry;
    if ParseRawInventory(raw) == Some(entries) {
      TokensJoin(raw);
      TokensAreRendered(Tokens(raw));
    }
    if raw == JoinTokens(RenderRaw(entries)) && forall e | e in entries :: GitEntry(e) {
      RawReadBack(entries);
    }
  }

  lemma {:induction false} TokensReadBack(entries: seq<RawEntry>)
    requires forall e | e in entries :: GitEntry(e)
    ensures ParseTokens(RenderRaw(entries)) == Some(entries)
    ensures forall t | t in RenderRaw(entries) :: Free(t, 0)
  {
    hide ParseEntry, Line;
    if entries != [] {
      TokensReadBack(entries[1..]);
      EntryReadBack(entries[0]);
      LineSplits(entries[0]);
      assert RenderRaw(entries)[2..] == RenderRaw(entries[1..]);
      assert entries == [entries[0]] + entries[1..];
    }
  }

  // ---- the sides of the pairs ----

  lemma {:induction false} CandidatesCount(slots: seq<Slot>, status: Status, oid: Text, s: Slot)
    ensures multiset(CandidatesOf(slots, status, oid))[s]
         == if Candidate(s.entry, status) && ObjectOf(s.entry) == oid then multiset(slots)[s] else 0
  {
    hide Candidate, ObjectOf;
    if slots != [] {
      var last := |slots| - 1;
      CandidatesCount(slots[..last], status, oid, s);
      assert slots == slots[..last] + [slots[last]];
    }
  }

  lemma GroupCount(slots: seq<Slot>, status: Status, oid: Text, s: Slot)
    ensures multiset(Group(slots, status, oid))[s]
         == if Candidate(s.entry, status) && ObjectOf(s.entry) == oid then multiset(slots)[s] else 0
    ensures |Group(slots, status, oid)| == |CandidatesOf(slots, status, oid)|
  {
    hide Candidate, ObjectOf, Sort;
    CandidatesCount(slots, status, oid, s);
    SortSorts(CandidatesOf(slots, status, oid), SlotPath);
  }

  lemma {:induction false} SidesConcat(a: seq<(Slot, Slot)>, b: seq<(Slot, Slot)>)
    ensures Sides(a + b) == Sides(a) + Sides(b)
  {
    if b == [] {
      assert a + b == a && Sides(a) + [] == Sides(a);
    } else {
      hide Sides;
      var last := |b| - 1;
      SidesConcat(a, b[..last]);
      LastPair(a, b, last);
    }
  }

  lemma LastPair(a: seq<(Slot, Slot)>, b: seq<(Slot, Slot)>, last: nat)
    requires |b| == last + 1 && Sides(a + b[..last]) == Sides(a) + Sides(b[..last])
    ensures Sides(a + b) == Sides(a) + Sides(b)
  {
    hide Sides;
    var front, p := b[..last], b[last];
    OneMorePair(a + front, p);
    OneMorePair(front, p);
    assert a + b == (a + front) + [p] && b == front + [p];
  }

  lemma SidesOneMore(d: seq<Slot>, a: seq<Slot>, last: nat)
    requires |d| == |a| == last + 1
    ensures Sides(Zip(d, a)) == Sides(Zip(d[..last], a[..last])) + [d[last], a[last]]
  {
    assert Zip(d, a)[..last] == Zip(d[..last], a[..last]);
  }

  lemma SnocMultiset<T>(s: seq<T>, last: nat)
    requires |s| == last + 1
    ensures multiset(s) == multiset(s[..last]) + multiset{s[last]}
  {
    assert s == s[..last] + [s[last]];
  }

  lemma {:induction false} SidesOfEqual(d: seq<Slot>, a: seq<Slot>)
    requires |d| == |a|
    ensures multiset(Sides(Zip(d, a))) == multiset(d) + multiset(a)
  {
    if d != [] {
      hide Sides;
      var last := |d| - 1;
      SidesOfEqual(d[..last], a[..last]);
      SidesOneMore(d, a, last);
      SnocMultiset(d, last);
      SnocMultiset(a, last);
    }
  }

  lemma TakeCount<T>(s: seq<T>, n: nat, x: T)
    requires n <= |s|
    ensures multiset(s[..n])[x] <= multiset(s)[x]
  {
    assert s == s[..n] + s[n..];
  }

  lemma SidesOfZip(d: seq<Slot>, a: seq<Slot>, s: Slot)
    ensures multiset(Sides(Zip(d, a)))[s] <= multiset(d)[s] + multiset(a)[s]
  {
    hide Sides;
    var n := Min(|d|, |a|);
    assert Zip(d, a) == Zip(d[..n], a[..n]);
    SidesOfEqual(d[..n], a[..n]);
    TakeCount(d, n, s);
    TakeCount(a, n, s);
  }

  lemma PairsCount(slots: seq<Slot>, oid: Text, s: Slot)
    ensures multiset(Sides(PairsOf(slots, oid)))[s] <= if ObjectOf(s.entry) == oid then multiset(slots)[s] else 0
  {
    hide Candidate, ObjectOf, Group, Zip, Sides;
    SidesOfZip(Group(slots, Deleted, oid), Group(slots, Added, oid), s);
    GroupCount(slots, Deleted, oid, s);
    GroupCount(slots, Added, oid, s);
    CandidateOfOne(s.entry);
  }

  /** No slot is used more often than it is listed, and none for an object that is not its own. */
  lemma {:induction false} SidesCount(slots: seq<Slot>, oids: seq<Text>, s: Slot)
    requires Distinct(oids)
    ensures multiset(Sides(AllPairs(slots, oids)))[s] <= multiset(slots)[s]
    ensures ObjectOf(s.entry) !in oids ==> multiset(Sides(AllPairs(slots, oids)))[s] == 0
  {
    hide ObjectOf, PairsOf, Sides;
    if oids == [] {
      NoSides(s);
    } else {
      var last := |oids| - 1;
      SidesCount(slots, oids[..last], s);
      assert oids == oids[..last] + [oids[last]];
      SidesConcat(AllPairs(slots, oids[..last]), PairsOf(slots, oids[last]));
      PairsCount(slots, oids[last], s);
    }
  }

  lemma NoSides(s: Slot)
    ensures multiset(Sides([]))[s] == 0
  {
  }

  lemma CandidateOfOne(e: RawEntry)
    ensures !(Candidate(e, Deleted) && Candidate(e, Added))
  {
  }

  lemma DeletedOidsDistinct(slots: seq<Slot>)
    ensures Distinct(DeletedOids(slots))
    ensures forall oid :: oid in DeletedOids(slots) <==> CandidatesOf(slots, Deleted, oid) != []
  {
    hide Candidate, ObjectOf;
    if slots != [] {
      DeletedOidsDistinct(slots[..|slots| - 1]);
    }
  }

  function SortedOids(slots: seq<Slot>): seq<Text> {
    Sort(DeletedOids(slots), Self)
  }

  lemma SortedOidsDistinct(slots: seq<Slot>)
    ensures Distinct(SortedOids(slots))
    ensures forall oid :: oid in SortedOids(slots) <==> CandidatesOf(slots, Deleted, oid) != []
  {
    hide Sort, CandidatesOf, DeletedOids;
    DeletedOidsDistinct(slots);
    SortSorts(DeletedOids(slots), Self);
    DistinctIgnoresOrder(DeletedOids(slots), SortedOids(slots));
    forall oid ensures oid in SortedOids(slots) <==> oid in DeletedOids(slots) {
      SameMultisetSameMembers(SortedOids(slots), DeletedOids(slots), oid);
    }
  }

  lemma SlotsOnce(entries: seq<RawEntry>, s: Slot)
    ensures multiset(Slots(entries))[s] <= 1
  {
    assert Distinct(Slots(entries));
    DistinctCounts(Slots(entries));
  }

  lemma {:induction false} KeptCount(slots: seq<Slot>, consumed: seq<Slot>, s: Slot)
    ensures multiset(KeptSlots(slots, consumed))[s] == if s in consumed then 0 else multiset(slots)[s]
  {
    if slots != [] {
      var last := |slots| - 1;
      KeptCount(slots[..last], consumed, s);
      assert slots == slots[..last] + [slots[last]];
    }
  }

  function Kept(entries: seq<RawEntry>): seq<Slot> {
    KeptSlots(Slots(entries), Sides(RenamePairs(entries)))
  }

  lemma SlotsShared(entries: seq<RawEntry>)
    ensures multiset(Kept(entries)) + multiset(Sides(RenamePairs(entries))) == multiset(Slots(entries))
  {
    hide KeptSlots, Sides, AllPairs, Sort, Slots;
    var slots, sides := Slots(entries), Sides(RenamePairs(entries));
    SortedOidsDistinct(slots);
    forall s: Slot ensures multiset(Kept(entries))[s] + multiset(sides)[s] == multiset(slots)[s] {
      KeptCount(slots, sides, s);
      SidesCount(slots, SortedOids(slots), s);
      SlotsOnce(entries, s);
      assert s in sides <==> s in multiset(sides);
    }
  }

  lemma EntriesConcat(a: seq<Slot>, b: seq<Slot>)
    ensures EntriesOf(a + b) == EntriesOf(a) + EntriesOf(b)
  {
  }

  lemma WithoutMultiset<T>(b: seq<T>, j: nat)
    requires j < |b|
    ensures multiset(b[..j] + b[j + 1..]) == multiset(b) - multiset{b[j]}
  {
    assert b == b[..j] + ([b[j]] + b[j + 1..]);
  }

  lemma EntriesWithout(b: seq<Slot>, j: nat)
    requires j < |b|
    ensures EntriesOf(b[..j] + b[j + 1..]) == EntriesOf(b)[..j] + EntriesOf(b)[j + 1..]
  {
  }

  lemma {:induction false} EntriesMultiset(a: seq<Slot>, b: seq<Slot>)
    requires multiset(a) == multiset(b)
    ensures multiset(EntriesOf(a)) == multiset(EntriesOf(b))
    decreases |a|
  {
    if a != [] {
      var j := FirstIn(a, b);
      RemovedAlike(a, b, 0, j);
      EntriesMultiset(a[..0] + a[0 + 1..], b[..j] + b[j + 1..]);
      EntriesAfterRemoval(a, b, 0, j);
    } else {
      SameMultisetSameLength(a, b);
    }
  }

  lemma FirstIn<T>(a: seq<T>, b: seq<T>) returns (j: nat)
    requires multiset(a) == multiset(b) && a != []
    ensures j < |b| && b[j] == a[0]
  {
    SameMultisetSameMembers(a, b, a[0]);
    j :| 0 <= j < |b| && b[j] == a[0];
  }

  lemma EntriesAfterRemoval(a: seq<Slot>, b: seq<Slot>, i: nat, j: nat)
    requires i < |a| && j < |b| && a[i] == b[j]
    requires multiset(EntriesOf(a[..i] + a[i + 1..])) == multiset(EntriesOf(b[..j] + b[j + 1..]))
    ensures multiset(EntriesOf(a)) == multiset(EntriesOf(b))
  {
    EntriesWithout(a, i);
    EntriesWithout(b, j);
    SameAfterRemoval(EntriesOf(a), EntriesOf(b), i, j);
  }

  lemma RemovedAlike<T>(a: seq<T>, b: seq<T>, i: nat, j: nat)
    requires multiset(a) == multiset(b) && i < |a| && j < |b| && a[i] == b[j]
    ensures multiset(a[..i] + a[i + 1..]) == multiset(b[..j] + b[j + 1..])
  {
    WithoutMultiset(a, i);
    WithoutMultiset(b, j);
  }

  lemma SameAfterRemoval<T>(a: seq<T>, b: seq<T>, i: nat, j: nat)
    requires i < |a| && j < |b| && a[i] == b[j]
    requires multiset(a[..i] + a[i + 1..]) == multiset(b[..j] + b[j + 1..])
    ensures multiset(a) == multiset(b)
  {
    WithoutMultiset(a, i);
    WithoutMultiset(b, j);
    assert a[i] in multiset(a) && b[j] in multiset(b);
    assert multiset(a) == (multiset(a) - multiset{a[i]}) + multiset{a[i]};
    assert multiset(b) == (multiset(b) - multiset{b[j]}) + multiset{b[j]};
  }

  // ---- main results on pairing ----

  /** Every raw entry is kept exactly once: as itself, or as one side of one rename. */
  lemma EveryEntryOnce(entries: seq<RawEntry>)
    ensures multiset(EntriesOf(Kept(entries))) + multiset(EntriesOf(Sides(RenamePairs(entries)))) == multiset(entries)
    ensures Paired(entries) == RawItems(EntriesOf(Kept(entries))) + Renames(RenamePairs(entries))
  {
    hide KeptSlots, Sides, AllPairs, Sort, RenamePairs;
    var kept, sides := Kept(entries), Sides(RenamePairs(entries));
    SlotsShared(entries);
    EntriesMultiset(Slots(entries), kept + sides);
    assert EntriesOf(Slots(entries)) == entries;
    EntriesConcat(kept, sides);
  }

  lemma PairsAreFromGroups(slots: seq<Slot>, oids: seq<Text>, p: (Slot, Slot))
    requires p in AllPairs(slots, oids)
    ensures exists oid :: oid in oids && p.0 in Group(slots, Deleted, oid) && p.1 in Group(slots, Added, oid)
  {
    hide Group;
    var last := |oids| - 1;
    assert oids == oids[..last] + [oids[last]];
    if p in AllPairs(slots, oids[..last]) {
      PairsAreFromGroups(slots, oids[..last], p);
    }
  }

  lemma InGroup(slots: seq<Slot>, status: Status, oid: Text, s: Slot)
    requires s in Group(slots, status, oid)
    ensures s in slots && Candidate(s.entry, status) && ObjectOf(s.entry) == oid
  {
    GroupCount(slots, status, oid, s);
    assert s in multiset(Group(slots, status, oid));
    assert s in multiset(slots);
  }

  /** A rename joins a delete and an add of one object that is neither missing nor a submodule. */
  lemma PairsAreSound(entries: seq<RawEntry>, p: (Slot, Slot))
    requires p in RenamePairs(entries)
    ensures p.0 in Slots(entries) && p.1 in Slots(entries)
    ensures p.0.entry.status.Deleted? && p.1.entry.status.Added?
    ensures p.0.entry.beforeOid == p.1.entry.afterOid && !Zero(p.0.entry.beforeOid)
    ensures p.0.entry.beforeMode != U("160000") && p.1.entry.afterMode != U("160000")
  {
    hide Group, AllPairs;
    var slots := Slots(entries);
    PairsAreFromGroups(slots, SortedOids(slots), p);
    var oid :| p.0 in Group(slots, Deleted, oid) && p.1 in Group(slots, Added, oid);
    InGroup(slots, Deleted, oid, p.0);
    InGroup(slots, Added, oid, p.1);
  }

  function CountPairs(pairs: seq<(Slot, Slot)>, oid: Text): nat {
    if pairs == [] then 0
    else CountPairs(pairs[..|pairs| - 1], oid) + (if ObjectOf(pairs[|pairs| - 1].0.entry) == oid then 1 else 0)
  }

  lemma CountPairsConcat(a: seq<(Slot, Slot)>, b: seq<(Slot, Slot)>, oid: Text)
    ensures CountPairs(a + b, oid) == CountPairs(a, oid) + CountPairs(b, oid)
  {
    if b == [] {
      assert a + b == a;
    } else {
      var last := |b| - 1;
      CountPairsConcat(a, b[..last], oid);
      assert (a + b)[..|a| + last] == a + b[..last];
    }
  }

  lemma CountPairsUniform(pairs: seq<(Slot, Slot)>, own: Text, oid: Text)
    requires forall p | p in pairs :: ObjectOf(p.0.entry) == own
    ensures CountPairs(pairs, oid) == if own == oid then |pairs| else 0
  {
    hide ObjectOf;
  }

  lemma PairsForObject(slots: seq<Slot>, oids: seq<Text>, oid: Text)
    requires Distinct(oids)
    ensures CountPairs(AllPairs(slots, oids), oid)
         == if oid in oids then Min(|CandidatesOf(slots, Deleted, oid)|, |CandidatesOf(slots, Added, oid)|) else 0
  {
    hide ObjectOf, Group, CountPairs, CandidatesOf;
    if oids == [] {
      NoPairCounts(oid);
    } else {
      var last := |oids| - 1;
      var own, pairs := oids[last], PairsOf(slots, oids[last]);
      PairsForObject(slots, oids[..last], oid);
      assert oids == oids[..last] + [own];
      CountPairsConcat(AllPairs(slots, oids[..last]), pairs, oid);
      forall p | p in pairs ensures ObjectOf(p.0.entry) == own {
        InGroup(slots, Deleted, own, p.0);
      }
      CountPairsUniform(pairs, own, oid);
      GroupSize(slots, Deleted, own);
      GroupSize(slots, Added, own);
    }
  }

  lemma NoPairCounts(oid: Text)
    ensures CountPairs([], oid) == 0
  {
  }

  lemma GroupSize(slots: seq<Slot>, status: Status, oid: Text)
    ensures |Group(slots, status, oid)| == |CandidatesOf(slots, status, oid)|
  {
    hide Sort, CandidatesOf;
    SortSorts(CandidatesOf(slots, status, oid), SlotPath);
  }

  /** The pairing is maximal: as many renames of an object as it has deletes and adds to match. */
  lemma RenamesAreMaximal(entries: seq<RawEntry>, oid: Text)
    ensures var slots := Slots(entries);
      CountPairs(RenamePairs(entries), oid)
      == Min(|CandidatesOf(slots, Deleted, oid)|, |CandidatesOf(slots, Added, oid)|)
  {
    hide CountPairs, AllPairs, CandidatesOf, Sort;
    SortedOidsDistinct(Slots(entries));
    PairsForObject(Slots(entries), SortedOids(Slots(entries)), oid);
  }

  // ---- the order of the input ----

  function EntryPath(e: RawEntry): Text { e.path }

  function EntryCandidates(entries: seq<RawEntry>, status: Status, oid: Text): seq<RawEntry> {
    if entries == [] then []
    else
      var last := |entries| - 1;
      var before := EntryCandidates(entries[..last], status, oid);
      if Candidate(entries[last], status) && ObjectOf(entries[last]) == oid then before + [entries[last]] else before
  }

  lemma CandidateEntries(slots: seq<Slot>, status: Status, oid: Text)
    ensures EntriesOf(CandidatesOf(slots, status, oid)) == EntryCandidates(EntriesOf(slots), status, oid)
  {
    hide Candidate, ObjectOf;
    if slots != [] {
      var last := |slots| - 1;
      CandidateEntries(slots[..last], status, oid);
      assert EntriesOf(slots)[..last] == EntriesOf(slots[..last]);
    }
  }

  lemma InsertEntries(x: Slot, s: seq<Slot>)
    ensures EntriesOf(Insert(x, s, SlotPath)) == Insert(x.entry, EntriesOf(s), EntryPath)
  {
    if s != [] && Less(SlotPath(s[0]), SlotPath(x)) {
      InsertEntries(x, s[1..]);
      assert EntriesOf(s)[1..] == EntriesOf(s[1..]);
    }
  }

  lemma SortEntries(s: seq<Slot>)
    ensures EntriesOf(Sort(s, SlotPath)) == Sort(EntriesOf(s), EntryPath)
  {
    if s != [] {
      SortEntries(s[1..]);
      InsertEntries(s[0], Sort(s[1..], SlotPath));
      assert EntriesOf(s)[1..] == EntriesOf(s[1..]);
    }
  }

  /** A group depends on the listed entries only. */
  function EntryGroup(entries: seq<RawEntry>, status: Status, oid: Text): seq<RawEntry> {
    Sort(EntryCandidates(entries, status, oid), EntryPath)
  }

  lemma GroupEntries(entries: seq<RawEntry>, status: Status, oid: Text)
    ensures EntriesOf(Group(Slots(entries), status, oid)) == EntryGroup(entries, status, oid)
  {
    hide CandidatesOf, EntryCandidates, Sort;
    SortEntries(CandidatesOf(Slots(entries), status, oid));
    CandidateEntries(Slots(entries), status, oid);
    assert EntriesOf(Slots(entries)) == entries;
  }

  lemma {:induction false} EntryCandidatesCount(entries: seq<RawEntry>, status: Status, oid: Text, e: RawEntry)
    ensures multiset(EntryCandidates(entries, status, oid))[e]
         == if Candidate(e, status) && ObjectOf(e) == oid then multiset(entries)[e] else 0
  {
    hide Candidate, ObjectOf;
    if entries != [] {
      var last := |entries| - 1;
      EntryCandidatesCount(entries[..last], status, oid, e);
      assert entries == entries[..last] + [entries[last]];
    }
  }

  ghost predicate DistinctPaths(entries: seq<RawEntry>) {
    forall i, j :: 0 <= i < j < |entries| ==> entries[i].path != entries[j].path
  }

  lemma PathsIdentify(entries: seq<RawEntry>, e: RawEntry, f: RawEntry)
    requires DistinctPaths(entries) && e in entries && f in entries && e.path == f.path
    ensures e == f
  {
  }

  lemma EntryGroupIgnoresOrder(a: seq<RawEntry>, b: seq<RawEntry>, status: Status, oid: Text)
    requires multiset(a) == multiset(b) && DistinctPaths(a)
    ensures EntryGroup(a, status, oid) == EntryGroup(b, status, oid)
  {
    hide Candidate, ObjectOf, Sort, EntryCandidates;
    var s, t := EntryCandidates(a, status, oid), EntryCandidates(b, status, oid);
    forall e: RawEntry ensures multiset(s)[e] == multiset(t)[e] {
      EntryCandidatesCount(a, status, oid, e);
      EntryCandidatesCount(b, status, oid, e);
    }
    forall i, j | 0 <= i < j < |s| && EntryPath(s[i]) == EntryPath(s[j]) ensures s[i] == s[j] {
      CandidateIsListed(a, status, oid, s[i]);
      CandidateIsListed(a, status, oid, s[j]);
      PathsIdentify(a, s[i], s[j]);
    }
    SortIgnoresOrder(s, t, EntryPath);
  }

  lemma CandidateIsListed(entries: seq<RawEntry>, status: Status, oid: Text, e: RawEntry)
    requires e in EntryCandidates(entries, status, oid)
    ensures e in entries
  {
    EntryCandidatesCount(entries, status, oid, e);
    assert e in multiset(EntryCandidates(entries, status, oid));
    assert e in multiset(entries);
  }

  lemma SameOids(a: seq<RawEntry>, b: seq<RawEntry>)
    requires multiset(a) == multiset(b) && DistinctPaths(a)
    ensures SortedOids(Slots(a)) == SortedOids(Slots(b))
  {
    hide CandidatesOf, DeletedOids, Slots;
    var x, y := DeletedOids(Slots(a)), DeletedOids(Slots(b));
    DeletedOidsDistinct(Slots(a));
    DeletedOidsDistinct(Slots(b));
    forall oid ensures oid in x <==> oid in y {
      SameGroups(a, b, Deleted, oid);
      GroupSize(Slots(a), Deleted, oid);
      GroupSize(Slots(b), Deleted, oid);
    }
    DistinctSameMembers(x, y);
    SortIgnoresOrder(x, y, Self);
  }

  lemma SameGroups(a: seq<RawEntry>, b: seq<RawEntry>, status: Status, oid: Text)
    requires multiset(a) == multiset(b) && DistinctPaths(a)
    ensures EntriesOf(Group(Slots(a), status, oid)) == EntriesOf(Group(Slots(b), status, oid))
    ensures |Group(Slots(a), status, oid)| == |Group(Slots(b), status, oid)|
  {
    hide Group, EntryGroup;
    GroupEntries(a, status, oid);
    GroupEntries(b, status, oid);
    EntryGroupIgnoresOrder(a, b, status, oid);
    assert |EntriesOf(Group(Slots(a), status, oid))| == |EntriesOf(Group(Slots(b), status, oid))|;
  }

  /** Two lists of pairs of the same entries. */
  ghost predicate SamePairs(p: seq<(Slot, Slot)>, q: seq<(Slot, Slot)>) {
    |p| == |q| && forall i :: 0 <= i < |p| ==> p[i].0.entry == q[i].0.entry && p[i].1.entry == q[i].1.entry
  }

  lemma ZipSame(a: seq<RawEntry>, b: seq<RawEntry>, oid: Text)
    requires multiset(a) == multiset(b) && DistinctPaths(a)
    ensures SamePairs(PairsOf(Slots(a), oid), PairsOf(Slots(b), oid))
  {
    hide Group;
    SameGroups(a, b, Deleted, oid);
    SameGroups(a, b, Added, oid);
    var d, e := Group(Slots(a), Deleted, oid), Group(Slots(b), Deleted, oid);
    var f, g := Group(Slots(a), Added, oid), Group(Slots(b), Added, oid);
    forall i | 0 <= i < Min(|d|, |f|) ensures d[i].entry == e[i].entry && f[i].entry == g[i].entry {
      assert EntriesOf(d)[i] == EntriesOf(e)[i] && EntriesOf(f)[i] == EntriesOf(g)[i];
    }
  }

  lemma AllPairsSame(a: seq<RawEntry>, b: seq<RawEntry>, oids: seq<Text>)
    requires multiset(a) == multiset(b) && DistinctPaths(a)
    ensures SamePairs(AllPairs(Slots(a), oids), AllPairs(Slots(b), oids))
  {
    hide PairsOf, Slots;
    if oids != [] {
      AllPairsSame(a, b, oids[..|oids| - 1]);
      ZipSame(a, b, oids[|oids| - 1]);
    }
  }

  lemma SamePairsSameResults(p: seq<(Slot, Slot)>, q: seq<(Slot, Slot)>)
    requires SamePairs(p, q)
    ensures Renames(p) == Renames(q) && EntriesOf(Sides(p)) == EntriesOf(Sides(q))
  {
    if p != [] {
      var last := |p| - 1;
      SamePairsSameResults(p[..last], q[..last]);
      assert Renames(p) == Renames(p[..last]) + [ToRename(p[last])];
      assert Renames(q) == Renames(q[..last]) + [ToRename(q[last])];
      assert EntriesOf(Sides(p)) == EntriesOf(Sides(p[..last])) + [p[last].0.entry, p[last].1.entry];
      assert EntriesOf(Sides(q)) == EntriesOf(Sides(q[..last])) + [q[last].0.entry, q[last].1.entry];
    }
  }

  lemma RawItemsCount(entries: seq<RawEntry>, item: Item)
    ensures multiset(RawItems(entries))[item] == if item.Raw? then multiset(entries)[item.entry] else 0
  {
    if entries != [] {
      var last := |entries| - 1;
      RawItemsCount(entries[..last], item);
      assert RawItems(entries) == RawItems(entries[..last]) + [Raw(entries[last])];
      assert entries == entries[..last] + [entries[last]];
    }
  }

  lemma PairedIgnoresOrder(a: seq<RawEntry>, b: seq<RawEntry>)
    requires multiset(a) == multiset(b) && DistinctPaths(a)
    ensures multiset(Paired(a)) == multiset(Paired(b))
  {
    hide AllPairs, Sort, Kept, Sides, Renames, Slots, Paired, RawItems;
    EveryEntryOnce(a);
    EveryEntryOnce(b);
    SameOids(a, b);
    AllPairsSame(a, b, SortedOids(Slots(a)));
    SamePairsSameResults(RenamePairs(a), RenamePairs(b));
    var k, l := EntriesOf(Kept(a)), EntriesOf(Kept(b));
    assert multiset(k) == multiset(a) - multiset(EntriesOf(Sides(RenamePairs(a))));
    assert multiset(l) == multiset(b) - multiset(EntriesOf(Sides(RenamePairs(b))));
    forall item: Item ensures multiset(RawItems(k))[item] == multiset(RawItems(l))[item] {
      RawItemsCount(k, item);
      RawItemsCount(l, item);
    }
  }

  // ---- order keys tell the items apart ----

  function AddSides(pairs: seq<(Slot, Slot)>): (r: seq<RawEntry>)
    ensures |r| == |pairs| && forall i :: 0 <= i < |r| ==> r[i] == pairs[i].1.entry
  {
    seq(|pairs|, i requires 0 <= i < |pairs| => pairs[i].1.entry)
  }

  /** The raw entries whose paths the items bear. */
  function Bearers(entries: seq<RawEntry>): seq<RawEntry> {
    EntriesOf(Kept(entries)) + AddSides(RenamePairs(entries))
  }

  lemma SubMore<T>(a: seq<T>, b: seq<T>, x: T, y: T)
    requires multiset(a) <= multiset(b)
    ensures multiset(a + [y]) <= multiset(b + [x, y])
  {
    assert b + [x, y] == b + [x] + [y];
  }

  lemma EntriesOfTwoMore(sides: seq<Slot>, x: Slot, y: Slot)
    ensures EntriesOf(sides + [x, y]) == EntriesOf(sides) + [x.entry, y.entry]
  {
  }

  lemma LastSides(pairs: seq<(Slot, Slot)>, last: nat)
    requires |pairs| == last + 1
    ensures Sides(pairs) == Sides(pairs[..last]) + [pairs[last].0, pairs[last].1]
    ensures AddSides(pairs) == AddSides(pairs[..last]) + [pairs[last].1.entry]
  {
    hide Sides, AddSides;
    assert pairs == pairs[..last] + [pairs[last]];
    OneMorePair(pairs[..last], pairs[last]);
  }

  lemma {:induction false} AddSidesAreSides(pairs: seq<(Slot, Slot)>)
    ensures multiset(AddSides(pairs)) <= multiset(EntriesOf(Sides(pairs)))
  {
    if pairs != [] {
      hide Sides, AddSides, EntriesOf;
      var last := |pairs| - 1;
      var p, sides := pairs[last], Sides(pairs[..last]);
      AddSidesAreSides(pairs[..last]);
      LastSides(pairs, last);
      EntriesOfTwoMore(sides, p.0, p.1);
      SubMore(AddSides(pairs[..last]), EntriesOf(sides), p.0.entry, p.1.entry);
    }
  }

  lemma BearersDistinct(entries: seq<RawEntry>, i: nat, j: nat)
    requires DistinctPaths(entries) && i < j < |Bearers(entries)|
    ensures Bearers(entries)[i].path != Bearers(entries)[j].path
  {
    hide Kept, RenamePairs, Sides, AddSides;
    var bearers := Bearers(entries);
    EveryEntryOnce(entries);
    AddSidesAreSides(RenamePairs(entries));
    assert multiset(bearers) <= multiset(entries);
    assert bearers[i] in multiset(bearers) && bearers[j] in multiset(bearers);
    assert bearers[i] in multiset(entries) && bearers[j] in multiset(entries);
    assert Distinct(entries);
    DistinctCounts(entries);
    if bearers[i].path == bearers[j].path {
      PathsIdentify(entries, bearers[i], bearers[j]);
      RepeatCounts(bearers, i, j);
    }
  }

  function ZeroAt(t: Text): nat {
    if t == [] || t[0] == 0 then 0 else 1 + ZeroAt(t[1..])
  }

  lemma ZeroAfter(p: Text, x: Text)
    requires Free(p, 0)
    ensures ZeroAt(p + ([0] + x)) == |p|
  {
    if p == [] {
      assert p + ([0] + x) == [0] + x;
    } else {
      ZeroAfter(p[1..], x);
      assert (p + ([0] + x))[1..] == p[1..] + ([0] + x);
    }
  }

  lemma KeyPrefix(p: Text, q: Text, x: Text, y: Text)
    requires Free(p, 0) && Free(q, 0) && p + ([0] + x) == q + ([0] + y)
    ensures p == q
  {
    ZeroAfter(p, x);
    ZeroAfter(q, y);
    assert p == (p + ([0] + x))[..|p|] && q == (q + ([0] + y))[..|q|];
  }

  lemma ItemBearsPath(entries: seq<RawEntry>, i: nat)
    requires i < |Paired(entries)|
    ensures |Paired(entries)| == |Bearers(entries)|
    ensures ActivePath(Paired(entries)[i]) == Bearers(entries)[i].path
  {
    hide Kept, RenamePairs, KeptSlots;
    EveryEntryOnce(entries);
  }

  lemma BearerIsListed(entries: seq<RawEntry>, e: RawEntry)
    requires e in Bearers(entries)
    ensures e in entries
  {
    hide Kept, RenamePairs, Sides, AddSides;
    EveryEntryOnce(entries);
    AddSidesAreSides(RenamePairs(entries));
    assert e in multiset(Bearers(entries));
    assert e in multiset(entries);
  }

  lemma OrderKeysDiffer(entries: seq<RawEntry>)
    requires DistinctPaths(entries) && forall e | e in entries :: Free(e.path, 0)
    ensures KeyInjective(Paired(entries), OrderKey)
  {
    hide Paired, Bearers, StatusText, BeforePath, ActivePath;
    var items := Paired(entries);
    forall i, j | 0 <= i < j < |items| ensures OrderKey(items[i]) != OrderKey(items[j]) {
      ItemBearsPath(entries, i);
      ItemBearsPath(entries, j);
      BearerIsListed(entries, Bearers(entries)[i]);
      BearerIsListed(entries, Bearers(entries)[j]);
      BearersDistinct(entries, i, j);
      if OrderKey(items[i]) == OrderKey(items[j]) {
        KeyPrefix(ActivePath(items[i]), ActivePath(items[j]),
                  StatusText(items[i]) + ([0] + BeforePath(items[i])),
                  StatusText(items[j]) + ([0] + BeforePath(items[j])));
        assert false;
      }
    }
  }

  /** The inventory is the same for every order in which git lists the changed paths. */
  lemma InventoryIgnoresOrder(a: seq<RawEntry>, b: seq<RawEntry>)
    requires multiset(a) == multiset(b)
    requires DistinctPaths(a) && forall e | e in a :: Free(e.path, 0)
    ensures CanonicalInventory(a) == CanonicalInventory(b)
  {
    hide Paired, Sort, OrderKey;
    PairedIgnoresOrder(a, b);
    OrderKeysDiffer(a);
    SortIgnoresOrder(Paired(a), Paired(b), OrderKey);
  }
}
