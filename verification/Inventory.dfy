/** The canonical git inventory (src/context-gateway/canonical-git-inventory.ts): parsing git's raw
    diff, pairing exact renames and ordering the entries. */
module Inventory {
  import opened Options
  import opened Lists
  import opened Texts

  datatype Status = Added | Deleted | Modified | TypeChanged | Unmerged

  datatype RawEntry = RawEntry(
    status: Status,
    path: Text,
    beforeMode: Text,
    afterMode: Text,
    beforeOid: Text,
    afterOid: Text)

  datatype Item =
    | Raw(entry: RawEntry)
    | ExactRename(beforePath: Text, afterPath: Text, beforeMode: Text, afterMode: Text, beforeOid: Text, afterOid: Text)

  // ---- git's raw output ----

  /** `splitNulTerminated`: the tokens between zero bytes, when the last byte is one. */
  function Tokens(raw: Text): seq<Text> {
    if raw == [] then []
    else if raw[0] == 0 then [[]] + Tokens(raw[1..])
    else
      var rest := Tokens(raw[1..]);
      if rest == [] then [] else [[raw[0]] + rest[0]] + rest[1..]
  }

  predicate Terminated(raw: Text) {
    raw == [] || raw[|raw| - 1] == 0
  }

  function Split(t: Text, separator: Unit): (parts: seq<Text>)
    ensures parts != []
  {
    if t == [] then [[]]
    else
      var rest := Split(t[1..], separator);
      if t[0] == separator then [[]] + rest else [[t[0]] + rest[0]] + rest[1..]
  }

  predicate Digits(t: Text, n: nat) {
    |t| == n && forall i :: 0 <= i < |t| ==> 0x30 <= t[i] <= 0x39
  }

  predicate Hex(t: Text) {
    t != [] && forall i :: 0 <= i < |t| ==> 0x30 <= t[i] <= 0x39 || 0x61 <= t[i] <= 0x66
  }

  /** `requireGitOidOrZero` of a lower-case hexadecimal text. */
  predicate Oid(t: Text) {
    Hex(t) && (|t| == 40 || |t| == 64)
  }

  function ReadStatus(t: Text): Option<Status> {
    if t == U("A") then Some(Added)
    else if t == U("D") then Some(Deleted)
    else if t == U("M") then Some(Modified)
    else if t == U("T") then Some(TypeChanged)
    else if t == U("U") then Some(Unmerged)
    else None
  }

  const SPACE: Unit := 0x20
  const COLON: Unit := 0x3A

  /** One record and its path; None where the original throws. */
  function ParseEntry(line: Text, path: Text): Option<RawEntry> {
    var parts := Split(line, SPACE);
    if |parts| != 5 || parts[0] == [] || parts[0][0] != COLON || path == [] then None
    else
      var beforeMode, status := parts[0][1..], ReadStatus(parts[4]);
      if !Digits(beforeMode, 6) || !Digits(parts[1], 6) || !Oid(parts[2]) || !Oid(parts[3]) || status.None? then None
      else Some(RawEntry(status.value, path, beforeMode, parts[1], parts[2], parts[3]))
  }

  function ParseTokens(tokens: seq<Text>): Option<seq<RawEntry>> {
    if tokens == [] then Some([])
    else if |tokens| == 1 then None
    else
      var head := ParseEntry(tokens[0], tokens[1]);
      var rest := ParseTokens(tokens[2..]);
      if head.None? || rest.None? then None else Some([head.value] + rest.value)
  }

  /** `parseRawInventory` */
  function ParseRawInventory(raw: Text): Option<seq<RawEntry>> {
    if !Terminated(raw) then None else ParseTokens(Tokens(raw))
  }

  // ---- pairing ----

  /** An entry as the object it is: its place in the list tells it from equal ones. */
  datatype Slot = Slot(index: nat, entry: RawEntry)

  function Slots(entries: seq<RawEntry>): (r: seq<Slot>)
    ensures |r| == |entries| && forall i :: 0 <= i < |r| ==> r[i] == Slot(i, entries[i])
  {
    seq(|entries|, i requires 0 <= i < |entries| => Slot(i, entries[i]))
  }

  function SlotPath(s: Slot): Text { s.entry.path }

  /** The object a delete takes away or an add brings. */
  function ObjectOf(e: RawEntry): Text {
    if e.status.Deleted? then e.beforeOid else e.afterOid
  }

  predicate Zero(oid: Text) {
    oid != [] && forall i :: 0 <= i < |oid| ==> oid[i] == 0x30
  }

  /** A delete or an add that may be one side of a rename. */
  predicate Candidate(e: RawEntry, status: Status) {
    && e.status == status && !Zero(ObjectOf(e))
    && (if e.status.Deleted? then e.beforeMode else e.afterMode) != U("160000")
  }

  function CandidatesOf(slots: seq<Slot>, status: Status, oid: Text): seq<Slot> {
    if slots == [] then []
    else
      var last := |slots| - 1;
      var before := CandidatesOf(slots[..last], status, oid);
      var e := slots[last].entry;
      if Candidate(e, status) && ObjectOf(e) == oid then before + [slots[last]] else before
  }

  /** The candidates for one object, ordered by path. */
  function Group(slots: seq<Slot>, status: Status, oid: Text): seq<Slot> {
    Sort(CandidatesOf(slots, status, oid), SlotPath)
  }

  /** The objects some candidate deletes, each once. */
  function DeletedOids(slots: seq<Slot>): seq<Text> {
    if slots == [] then []
    else
      var last := |slots| - 1;
      var before := DeletedOids(slots[..last]);
      var e := slots[last].entry;
      if Candidate(e, Deleted) && ObjectOf(e) !in before then before + [ObjectOf(e)] else before
  }

  function Zip(d: seq<Slot>, a: seq<Slot>): (r: seq<(Slot, Slot)>)
    ensures |r| == Min(|d|, |a|) && forall i :: 0 <= i < |r| ==> r[i] == (d[i], a[i])
  {
    seq(Min(|d|, |a|), i requires 0 <= i < Min(|d|, |a|) => (d[i], a[i]))
  }

  function PairsOf(slots: seq<Slot>, oid: Text): seq<(Slot, Slot)> {
    Zip(Group(slots, Deleted, oid), Group(slots, Added, oid))
  }

  function AllPairs(slots: seq<Slot>, oids: seq<Text>): seq<(Slot, Slot)> {
    if oids == [] then [] else AllPairs(slots, oids[..|oids| - 1]) + PairsOf(slots, oids[|oids| - 1])
  }

  function RenamePairs(entries: seq<RawEntry>): seq<(Slot, Slot)> {
    AllPairs(Slots(entries), Sort(DeletedOids(Slots(entries)), Self))
  }

  function ToRename(p: (Slot, Slot)): Item {
    ExactRename(p.0.entry.path, p.1.entry.path, p.0.entry.beforeMode, p.1.entry.afterMode,
                p.0.entry.beforeOid, p.1.entry.afterOid)
  }

  function Renames(pairs: seq<(Slot, Slot)>): (r: seq<Item>)
    ensures |r| == |pairs| && forall i :: 0 <= i < |r| ==> r[i] == ToRename(pairs[i])
  {
    seq(|pairs|, i requires 0 <= i < |pairs| => ToRename(pairs[i]))
  }

  /** The delete and the add of every pair. */
  function Sides(pairs: seq<(Slot, Slot)>): seq<Slot> {
    if pairs == [] then []
    else
      var last := |pairs| - 1;
      Sides(pairs[..last]) + [pairs[last].0, pairs[last].1]
  }

  function KeptSlots(slots: seq<Slot>, consumed: seq<Slot>): seq<Slot> {
    if slots == [] then []
    else
      var last := |slots| - 1;
      var before := KeptSlots(slots[..last], consumed);
      if slots[last] in consumed then before else before + [slots[last]]
  }

  function EntriesOf(slots: seq<Slot>): (r: seq<RawEntry>)
    ensures |r| == |slots| && forall i :: 0 <= i < |r| ==> r[i] == slots[i].entry
  {
    seq(|slots|, i requires 0 <= i < |slots| => slots[i].entry)
  }

  function RawItems(entries: seq<RawEntry>): (r: seq<Item>)
    ensures |r| == |entries| && forall i :: 0 <= i < |r| ==> r[i] == Raw(entries[i])
  {
    seq(|entries|, i requires 0 <= i < |entries| => Raw(entries[i]))
  }

  /** `pairExactRenames` */
  function Paired(entries: seq<RawEntry>): seq<Item> {
    var pairs := RenamePairs(entries);
    RawItems(EntriesOf(KeptSlots(Slots(entries), Sides(pairs)))) + Renames(pairs)
  }

  // ---- order ----

  function StatusText(item: Item): Text {
    if item.ExactRename? then U("exact_rename")
    else match item.entry.status
      case Added => U("added")
      case Deleted => U("deleted")
      case Modified => U("modified")
      case TypeChanged => U("type_changed")
      case Unmerged => U("unmerged")
  }

  /** The path after the change, or before it for a delete. */
  function ActivePath(item: Item): Text {
    if item.ExactRename? then item.afterPath else item.entry.path
  }

  function BeforePath(item: Item): Text {
    if item.ExactRename? then item.beforePath else if item.entry.status.Added? then [] else item.entry.path
  }

  /** The text by which `compareInventoryEntries` orders entries. */
  function OrderKey(item: Item): Text {
    ActivePath(item) + ([0] + (StatusText(item) + ([0] + BeforePath(item))))
  }

  function CanonicalInventory(entries: seq<RawEntry>): seq<Item> {
    Sort(Paired(entries), OrderKey)
  }

  // ---- the loops ----

  lemma TokensOneMore(raw: Text, start: nat, index: nat)
    requires start <= index < |raw| && raw[index] == 0
    requires forall i :: start <= i < index ==> raw[i] != 0
    ensures Tokens(raw[start..]) == [raw[start..index]] + Tokens(raw[index + 1..])
    decreases index - start
  {
    var t := raw[start..];
    if start == index {
      assert t[1..] == raw[index + 1..];
      assert raw[start..index] == [];
    } else {
      TokensOneMore(raw, start + 1, index);
      assert t[1..] == raw[start + 1..];
      assert [raw[start]] + raw[start + 1..index] == raw[start..index];
    }
  }

  lemma NoTokens(t: Text)
    requires forall i :: 0 <= i < |t| ==> t[i] != 0
    ensures Tokens(t) == []
  {
  }

  lemma OneMoreToken(raw: Text, found: seq<Text>, start: nat, index: nat)
    requires start <= index < |raw| && raw[index] == 0
    requires forall i :: start <= i < index ==> raw[i] != 0
    ensures found + Tokens(raw[start..]) == (found + [raw[start..index]]) + Tokens(raw[index + 1..])
  {
    hide Tokens;
    TokensOneMore(raw, start, index);
  }

  /** `splitNulTerminated` over the bytes. */
  method SplitNulTerminated(raw: Text) returns (tokens: Option<seq<Text>>)
    ensures tokens == if Terminated(raw) then Some(Tokens(raw)) else None
  {
    if raw == [] {
      return Some([]);
    }
    if raw[|raw| - 1] != 0 {
      return None;
    }
    hide Tokens;
    var found := [];
    var start := 0;
    assert raw[0..] == raw;
    for index := 0 to |raw|
      invariant start <= index
      invariant Tokens(raw) == found + Tokens(raw[start..])
      invariant forall i :: start <= i < index ==> raw[i] != 0
    {
      if raw[index] == 0 {
        OneMoreToken(raw, found, start, index);
        found := found + [raw[start..index]];
        start := index + 1;
      }
    }
    assert start == |raw|;
    NoTokens(raw[start..]);
    assert found + [] == found;
    return Some(found);
  }

  /** `groupRenameCandidates` */
  method GroupRenameCandidates(slots: seq<Slot>, status: Status) returns (groups: map<Text, seq<Slot>>)
    ensures forall oid :: (if oid in groups then groups[oid] else []) == Group(slots, status, oid)
    ensures status.Deleted? ==> forall oid :: oid in groups <==> oid in DeletedOids(slots)
  {
    hide Candidate, ObjectOf;
    var unsorted: map<Text, seq<Slot>> := map[];
    for i := 0 to |slots|
      invariant forall oid :: (if oid in unsorted then unsorted[oid] else []) == CandidatesOf(slots[..i], status, oid)
      invariant status.Deleted? ==> forall oid :: oid in unsorted <==> oid in DeletedOids(slots[..i])
    {
      assert slots[..i + 1][..i] == slots[..i];
      var e := slots[i].entry;
      if Candidate(e, status) {
        var oid := ObjectOf(e);
        unsorted := unsorted[oid := (if oid in unsorted then unsorted[oid] else []) + [slots[i]]];
      }
    }
    assert slots[..|slots|] == slots;
    groups := map oid | oid in unsorted :: Sort(unsorted[oid], SlotPath);
  }

  lemma OneMorePair(pairs: seq<(Slot, Slot)>, p: (Slot, Slot))
    ensures Sides(pairs + [p]) == Sides(pairs) + [p.0, p.1]
    ensures Renames(pairs + [p]) == Renames(pairs) + [ToRename(p)]
  {
    assert (pairs + [p])[..|pairs|] == pairs;
  }

  lemma NoPairs(slots: seq<Slot>)
    ensures AllPairs(slots, []) == [] && Sides([]) == [] && Renames([]) == []
  {
  }

  lemma OneMoreObject(slots: seq<Slot>, oids: seq<Text>, k: nat)
    requires k < |oids|
    ensures AllPairs(slots, oids[..k + 1]) == AllPairs(slots, oids[..k]) + PairsOf(slots, oids[k])
  {
    assert oids[..k + 1][..k] == oids[..k];
  }

  /** `pairExactRenames`, object by object and pair by pair. */
  method PairExactRenames(entries: seq<RawEntry>) returns (items: seq<Item>)
    ensures items == Paired(entries)
  {
    hide CandidatesOf, Group, KeptSlots, Sort, Sides, Renames, AllPairs, ToRename, Zip, DeletedOids, RawItems,
      EntriesOf;
    var slots := Slots(entries);
    var deletes := GroupRenameCandidates(slots, Deleted);
    var adds := GroupRenameCandidates(slots, Added);
    var oids := Sort(DeletedOids(slots), Self);
    var consumed: seq<Slot> := [];
    var renamed: seq<Item> := [];
    ghost var pairs: seq<(Slot, Slot)> := [];
    NoPairs(slots);
    for k := 0 to |oids|
      invariant pairs == AllPairs(slots, oids[..k])
      invariant consumed == Sides(pairs) && renamed == Renames(pairs)
    {
      var oid := oids[k];
      var deleted := if oid in deletes then deletes[oid] else [];
      var added := if oid in adds then adds[oid] else [];
      ghost var earlier := pairs;
      ghost var zipped := Zip(deleted, added);
      for index := 0 to Min(|deleted|, |added|)
        invariant pairs == earlier + zipped[..index]
        invariant consumed == Sides(pairs) && renamed == Renames(pairs)
      {
        var before, after := deleted[index], added[index];
        OneMorePair(pairs, (before, after));
        consumed := consumed + [before, after];
        renamed := renamed + [ToRename((before, after))];
        pairs := pairs + [(before, after)];
      }
      assert zipped[..|zipped|] == zipped;
      OneMoreObject(slots, oids, k);
    }
    assert oids[..|oids|] == oids;
    items := RawItems(EntriesOf(KeptSlots(slots, consumed))) + renamed;
  }
}
