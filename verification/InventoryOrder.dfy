/** Which delete is paired with which add, and what the inventory lists in which order. */
module InventoryOrder {
  import opened Options
  import opened Lists
  import opened Texts
  import opened Inventory
  import opened InventoryLaws

  // ---- one object's candidates ----

  lemma {:induction false} PairsComeFrom(slots: seq<Slot>, oids: seq<Text>, p: (Slot, Slot))
    ensures p in AllPairs(slots, oids) <==> exists oid :: oid in oids && p in PairsOf(slots, oid)
  {
    hide PairsOf;
    if oids != [] {
      var last := |oids| - 1;
      PairsComeFrom(slots, oids[..last], p);
      assert oids == oids[..last] + [oids[last]];
    }
  }

  /** A pair stands at one place of the two groups of its object. */
  lemma PairPlace(entries: seq<RawEntry>, p: (Slot, Slot)) returns (i: nat)
    requires p in RenamePairs(entries)
    ensures var slots, oid := Slots(entries), ObjectOf(p.0.entry);
      var d, a := Group(slots, Deleted, oid), Group(slots, Added, oid);
      oid in SortedOids(slots) && i < |d| && i < |a| && p == (d[i], a[i])
  {
    hide Group, AllPairs, Sort;
    var slots := Slots(entries);
    PairsComeFrom(slots, SortedOids(slots), p);
    var oid :| oid in SortedOids(slots) && p in PairsOf(slots, oid);
    i :| 0 <= i < |PairsOf(slots, oid)| && PairsOf(slots, oid)[i] == p;
    InGroup(slots, Deleted, oid, p.0);
  }

  lemma SlotsApart(entries: seq<RawEntry>, s: Slot, t: Slot)
    requires DistinctPaths(entries) && s in Slots(entries) && t in Slots(entries) && s != t
    ensures s.entry.path != t.entry.path
  {
  }

  lemma GroupDistinct(entries: seq<RawEntry>, status: Status, oid: Text, i: nat, j: nat)
    requires i < j < |Group(Slots(entries), status, oid)|
    ensures Group(Slots(entries), status, oid)[i] != Group(Slots(entries), status, oid)[j]
  {
    hide Candidate, ObjectOf;
    var slots := Slots(entries);
    var g := Group(slots, status, oid);
    hide Group;
    if g[i] == g[j] {
      RepeatCounts(g, i, j);
      GroupCount(slots, status, oid, g[i]);
      SlotsOnce(entries, g[i]);
      assert false;
    }
  }

  /** The candidates of one object are ordered by path. */
  lemma GroupOrder(entries: seq<RawEntry>, status: Status, oid: Text, i: nat, j: nat)
    requires DistinctPaths(entries)
    requires i < |Group(Slots(entries), status, oid)| && j < |Group(Slots(entries), status, oid)|
    ensures var g := Group(Slots(entries), status, oid); Less(g[i].entry.path, g[j].entry.path) <==> i < j
  {
    hide Candidate, ObjectOf, Less;
    var slots := Slots(entries);
    var g := Group(slots, status, oid);
    SortSorts(CandidatesOf(slots, status, oid), SlotPath);
    InGroup(slots, status, oid, g[i]);
    InGroup(slots, status, oid, g[j]);
    var x, y := g[i].entry.path, g[j].entry.path;
    if i == j {
      LessIrreflexive(x);
    } else {
      if i < j {
        GroupDistinct(entries, status, oid, i, j);
      } else {
        GroupDistinct(entries, status, oid, j, i);
      }
      SlotsApart(entries, g[i], g[j]);
      LessTotal(x, y);
      assert SlotPath(g[i]) == x && SlotPath(g[j]) == y;
      if i < j {
        assert !Less(y, x);
      } else {
        assert !Less(x, y);
      }
    }
  }

  // ---- which are paired ----

  /** Two renames of one object: their deletes stand in the order of their adds. */
  lemma PairsKeepOrder(entries: seq<RawEntry>, p: (Slot, Slot), q: (Slot, Slot))
    requires DistinctPaths(entries) && p in RenamePairs(entries) && q in RenamePairs(entries)
    requires p.0.entry.beforeOid == q.0.entry.beforeOid
    ensures Less(p.0.entry.path, q.0.entry.path) <==> Less(p.1.entry.path, q.1.entry.path)
  {
    hide Less, Group, RenamePairs, SortedOids;
    PairsAreSound(entries, p);
    PairsAreSound(entries, q);
    var i := PairPlace(entries, p);
    var j := PairPlace(entries, q);
    var oid := p.0.entry.beforeOid;
    GroupOrder(entries, Deleted, oid, i, j);
    GroupOrder(entries, Added, oid, i, j);
  }

  lemma {:induction false} SidesHold(pairs: seq<(Slot, Slot)>, p: (Slot, Slot))
    requires p in pairs
    ensures p.0 in Sides(pairs) && p.1 in Sides(pairs)
  {
    var last := |pairs| - 1;
    if p != pairs[last] {
      assert pairs == pairs[..last] + [pairs[last]];
      SidesHold(pairs[..last], p);
    }
  }

  /** The side of a pair that has the status. */
  function SideOf(p: (Slot, Slot), status: Status): Slot {
    if status.Deleted? then p.0 else p.1
  }

  /** Of an object's candidates those that come first by path are paired: one that is left over comes after every paired
      one of its status. */
  lemma FirstArePaired(entries: seq<RawEntry>, p: (Slot, Slot), c: Slot, status: Status)
    requires DistinctPaths(entries) && p in RenamePairs(entries) && (status.Deleted? || status.Added?)
    requires c in Slots(entries) && Candidate(c.entry, status) && ObjectOf(c.entry) == p.0.entry.beforeOid
    requires c !in Sides(RenamePairs(entries))
    ensures Less(SideOf(p, status).entry.path, c.entry.path)
  {
    hide Less, Group, Sort, AllPairs, Sides, Candidate;
    PairsAreSound(entries, p);
    var slots, oid := Slots(entries), p.0.entry.beforeOid;
    var i := PairPlace(entries, p);
    GroupCount(slots, status, oid, c);
    assert c in multiset(slots);
    var d, a := Group(slots, Deleted, oid), Group(slots, Added, oid);
    var g := Group(slots, status, oid);
    assert c in multiset(g);
    var j :| 0 <= j < |g| && g[j] == c;
    if j < |d| && j < |a| {
      var q := (d[j], a[j]);
      assert q == PairsOf(slots, oid)[j];
      PairsComeFrom(slots, SortedOids(slots), q);
      SidesHold(RenamePairs(entries), q);
      assert false;
    }
    GroupOrder(entries, status, oid, i, j);
  }

  /** The entry has the status and bears a blob that is there: its object is not all zeros, and it is no submodule. */
  ghost predicate Bears(e: RawEntry, status: Status, oid: Text) {
    && e.status == status
    && oid == (if status.Deleted? then e.beforeOid else e.afterOid)
    && (if status.Deleted? then e.beforeMode else e.afterMode) != U("160000")
    && (oid == [] || exists i :: 0 <= i < |oid| && oid[i] != 0x30)
  }

  lemma BearsIff(e: RawEntry, status: Status, oid: Text)
    requires status.Deleted? || status.Added?
    ensures Bears(e, status, oid) <==> Candidate(e, status) && ObjectOf(e) == oid
  {
    hide U;
  }

  lemma GroupPlace(entries: seq<RawEntry>, status: Status, oid: Text, s: Slot) returns (i: nat)
    requires s in Slots(entries) && (status.Deleted? || status.Added?) && Bears(s.entry, status, oid)
    ensures i < |Group(Slots(entries), status, oid)| && Group(Slots(entries), status, oid)[i] == s
  {
    hide Group, Candidate, Bears;
    BearsIff(s.entry, status, oid);
    GroupCount(Slots(entries), status, oid, s);
    assert s in multiset(Slots(entries));
    assert s in multiset(Group(Slots(entries), status, oid));
    i :| 0 <= i < |Group(Slots(entries), status, oid)| && Group(Slots(entries), status, oid)[i] == s;
  }

  /** No delete and add that bear one blob are both left over, and nothing else is paired. */
  lemma NoPairIsLeft(entries: seq<RawEntry>, d: Slot, a: Slot, oid: Text)
    requires d in Slots(entries) && a in Slots(entries) && Bears(d.entry, Deleted, oid) && Bears(a.entry, Added, oid)
    ensures d in Sides(RenamePairs(entries)) || a in Sides(RenamePairs(entries))
    ensures forall p | p in RenamePairs(entries) ::
      Bears(p.0.entry, Deleted, p.0.entry.beforeOid) && Bears(p.1.entry, Added, p.0.entry.beforeOid)
  {
    hide Group, AllPairs, Sides, Bears, Candidate, CandidatesOf, Sort;
    forall p | p in RenamePairs(entries)
      ensures Bears(p.0.entry, Deleted, p.0.entry.beforeOid) && Bears(p.1.entry, Added, p.0.entry.beforeOid)
    {
      PairBears(entries, p);
    }
    var slots := Slots(entries);
    var i := GroupPlace(entries, Deleted, oid, d);
    var j := GroupPlace(entries, Added, oid, a);
    var ds, as_ := Group(slots, Deleted, oid), Group(slots, Added, oid);
    var k := if i < |as_| then i else j;
    var q := (ds[k], as_[k]);
    assert q == PairsOf(slots, oid)[k];
    GroupCount(slots, Deleted, oid, d);
    SortedOidsDistinct(slots);
    PairsComeFrom(slots, SortedOids(slots), q);
    SidesHold(RenamePairs(entries), q);
  }

  lemma PairBears(entries: seq<RawEntry>, p: (Slot, Slot))
    requires p in RenamePairs(entries)
    ensures Bears(p.0.entry, Deleted, p.0.entry.beforeOid) && Bears(p.1.entry, Added, p.0.entry.beforeOid)
  {
    hide RenamePairs, U;
    PairsAreSound(entries, p);
  }

  // ---- the list ----

  /** The item is one of the entries, or the rename of one entry to another. */
  ghost predicate Founded(entries: seq<RawEntry>, item: Item) {
    if item.Raw? then item.entry in entries
    else exists d, a :: d in entries && a in entries && IsRename(item, d, a)
  }

  predicate IsRename(item: Item, d: RawEntry, a: RawEntry) {
    && d.status.Deleted? && a.status.Added? && d.beforeOid == a.afterOid
    && item == ExactRename(d.path, a.path, d.beforeMode, a.afterMode, d.beforeOid, a.afterOid)
  }

  /** The inventory lists nothing but the entries and the renames that were found, each as often, ... */
  lemma InventoryHolds(entries: seq<RawEntry>)
    ensures multiset(CanonicalInventory(entries))
         == multiset(RawItems(EntriesOf(Kept(entries)))) + multiset(Renames(RenamePairs(entries)))
    ensures forall item | item in CanonicalInventory(entries) :: Founded(entries, item)
  {
    hide Kept, Sort, OrderKey, RenamePairs, RawItems, Renames, Founded;
    EveryEntryOnce(entries);
    SortSorts(Paired(entries), OrderKey);
    forall item | item in CanonicalInventory(entries) ensures Founded(entries, item) {
      SameMultisetSameMembers(CanonicalInventory(entries), Paired(entries), item);
      PairedIsFounded(entries, item);
    }
  }

  lemma PairedIsFounded(entries: seq<RawEntry>, item: Item)
    requires item in RawItems(EntriesOf(Kept(entries))) + Renames(RenamePairs(entries))
    ensures Founded(entries, item)
  {
    hide Kept, RenamePairs;
    EveryEntryOnce(entries);
    if item in RawItems(EntriesOf(Kept(entries))) {
      assert item.entry in multiset(EntriesOf(Kept(entries)));
      assert item.entry in multiset(entries);
    } else {
      var i :| 0 <= i < |RenamePairs(entries)| && ToRename(RenamePairs(entries)[i]) == item;
      var p := RenamePairs(entries)[i];
      PairsAreSound(entries, p);
      assert IsRename(item, p.0.entry, p.1.entry);
    }
  }

  /** ... and in the order of the paths after the change. */
  lemma InventoryIsOrdered(entries: seq<RawEntry>, i: nat, j: nat)
    requires DistinctPaths(entries) && (forall e | e in entries :: Free(e.path, 0))
    requires i < j < |CanonicalInventory(entries)|
    ensures Less(ActivePath(CanonicalInventory(entries)[i]), ActivePath(CanonicalInventory(entries)[j]))
  {
    hide Sort, OrderKey, Paired, Less, Free, ActivePath;
    var items := CanonicalInventory(entries);
    SortSorts(Paired(entries), OrderKey);
    SortKeepsApart(entries, i, j);
    PathIsFree(entries, items[i]);
    PathIsFree(entries, items[j]);
    var p, q := ActivePath(items[i]), ActivePath(items[j]);
    LessTotal(p, q);
    if Less(q, p) {
      KeyLess(items[j], items[i]);
      assert false;
    }
  }

  lemma KeyLess(x: Item, y: Item)
    requires Free(ActivePath(x), 0) && Free(ActivePath(y), 0) && Less(ActivePath(x), ActivePath(y))
    ensures Less(OrderKey(x), OrderKey(y))
  {
    hide ActivePath, BeforePath, StatusText;
    ZeroLess(ActivePath(x), ActivePath(y),
             StatusText(x) + ([0] + BeforePath(x)), StatusText(y) + ([0] + BeforePath(y)));
  }

  lemma {:induction false} ZeroLess(p: Text, q: Text, x: Text, y: Text)
    requires Free(p, 0) && Free(q, 0) && Less(p, q)
    ensures Less(p + ([0] + x), q + ([0] + y))
  {
    var s, t := p + ([0] + x), q + ([0] + y);
    assert t[0] == q[0];
    if p == [] {
      assert s[0] == 0;
    } else {
      assert s[0] == p[0] && s[1..] == p[1..] + ([0] + x) && t[1..] == q[1..] + ([0] + y);
      if p[0] == q[0] {
        ZeroLess(p[1..], q[1..], x, y);
      }
    }
  }

  lemma PathIsFree(entries: seq<RawEntry>, item: Item)
    requires (forall e | e in entries :: Free(e.path, 0)) && item in CanonicalInventory(entries)
    ensures Free(ActivePath(item), 0)
  {
    hide Free, CanonicalInventory, Kept, RenamePairs;
    InventoryHolds(entries);
    assert Founded(entries, item);
  }

  /** No two items have one path after the change. */
  lemma SortKeepsApart(entries: seq<RawEntry>, i: nat, j: nat)
    requires DistinctPaths(entries) && i < j < |CanonicalInventory(entries)|
    ensures ActivePath(CanonicalInventory(entries)[i]) != ActivePath(CanonicalInventory(entries)[j])
  {
    hide Sort, OrderKey, ActivePath, Bearers;
    var items, before := CanonicalInventory(entries), Paired(entries);
    hide Paired;
    SortSorts(before, OrderKey);
    if ActivePath(items[i]) == ActivePath(items[j]) {
      var k, l := TwoPlaces(before, items, i, j);
      ItemBearsPath(entries, k);
      ItemBearsPath(entries, l);
      BearersDistinct(entries, if k < l then k else l, if k < l then l else k);
      assert false;
    }
  }

  /** Two places of a list are two places of any rearrangement of it. */
  lemma TwoPlaces<T>(a: seq<T>, b: seq<T>, i: nat, j: nat) returns (k: nat, l: nat)
    requires multiset(a) == multiset(b) && i < j < |b|
    ensures k < |a| && l < |a| && k != l && a[k] == b[i] && a[l] == b[j]
  {
    assert b[i] in multiset(b) && b[j] in multiset(b);
    k :| 0 <= k < |a| && a[k] == b[i];
    if b[i] != b[j] {
      l :| 0 <= l < |a| && a[l] == b[j];
    } else {
      RepeatCounts(b, i, j);
      if forall l :: 0 <= l < |a| && l != k ==> a[l] != b[i] {
        OnceCounted(a, k);
        assert false;
      }
      l :| 0 <= l < |a| && l != k && a[l] == b[i];
    }
  }

  lemma OnceCounted<T>(a: seq<T>, k: nat)
    requires k < |a| && forall l :: 0 <= l < |a| && l != k ==> a[l] != a[k]
    ensures multiset(a)[a[k]] == 1
  {
    assert a == a[..k] + [a[k]] + a[k + 1..];
    assert a[k] !in a[..k] && a[k] !in a[k + 1..];
  }
}
