/** What the clusters of `dedupe` keep of the findings that went into them. */
module DedupLaws {
  import opened Options
  import opened Lists
  import opened Texts
  import opened Dedup

  // ---- every input in one output ----

  /** Members are positions of the input, in order, without repetition. */
  ghost predicate Ordered(n: nat, members: seq<nat>) {
    && members != []
    && (forall k | k in members :: k < n)
    && (forall i, j :: 0 <= i < j < |members| ==> members[i] < members[j])
  }

  predicate Holds(cs: seq<Cluster>, k: nat) {
    exists i :: 0 <= i < |cs| && k in cs[i].members
  }

  ghost predicate Partition(n: nat, cs: seq<Cluster>) {
    && (forall c | c in cs :: Ordered(n, c.members))
    && (forall k: nat | k < n :: Holds(cs, k))
    && (forall i, j | 0 <= i < j < |cs| :: forall k :: !(k in cs[i].members && k in cs[j].members))
  }

  /** Every input finding is in exactly one output, once. */
  lemma {:induction false} EveryFindingOnce(m: Rules, findings: seq<Finding>)
    ensures Partition(|findings|, Clusters(m, findings))
  {
    hide Merge, WithProviderVoteKeys, Partition, Placed;
    if findings != [] {
      var n := |findings| - 1;
      EveryFindingOnce(m, findings[..n]);
      PlacedPartition(m, Clusters(m, findings[..n]), findings[n], n);
    } else {
      NothingPartition();
    }
  }

  lemma NothingPartition()
    ensures Partition(0, [])
  {
  }

  lemma PlacedPartition(m: Rules, cs: seq<Cluster>, f: Finding, n: nat)
    requires Partition(n, cs)
    ensures Partition(n + 1, Placed(m, cs, f, n))
  {
    hide Merge, WithProviderVoteKeys, Ordered;
    var at := FirstDuplicate(m, cs, f);
    var ds := Placed(m, cs, f, n);
    forall i | 0 <= i < |cs|
      ensures n !in cs[i].members && Ordered(n + 1, cs[i].members) && Ordered(n + 1, cs[i].members + [n])
    {
      assert cs[i] in cs;
      Extended(n, cs[i].members);
    }
    SingleOrdered(n);
    assert n in ds[at].members;
    forall k: nat | k < n + 1 ensures Holds(ds, k) {
      if k < n {
        assert Holds(cs, k);
        var i :| 0 <= i < |cs| && k in cs[i].members;
        assert k in ds[i].members;
      }
    }
  }

  lemma Extended(n: nat, members: seq<nat>)
    requires Ordered(n, members)
    ensures n !in members && Ordered(n + 1, members) && Ordered(n + 1, members + [n])
  {
    var longer := members + [n];
    forall i, j | 0 <= i < j < |longer| ensures longer[i] < longer[j] {
      assert longer[i] == members[i] && members[i] in members;
      assert j < |members| ==> longer[j] == members[j];
    }
  }

  lemma SingleOrdered(n: nat)
    ensures Ordered(n + 1, [n])
  {
  }

  // ---- what an output keeps ----

  /** The findings that went into an output. */
  ghost function Parts(fs: seq<Finding>, members: seq<nat>): (parts: seq<Finding>)
    requires forall k | k in members :: k < |fs|
    ensures |parts| == |members|
  {
    seq(|members|, i requires 0 <= i < |members| => assert members[i] in members; fs[members[i]])
  }

  /** The output lies in its parts' file, and its severity and end line are the largest of its parts. */
  ghost predicate Maxima(m: Rules, parts: seq<Finding>, out: Finding) {
    && (forall f | f in parts :: m.normalizeFile(f.file) == m.normalizeFile(out.file))
    && (forall f | f in parts :: Rank(f.severity) <= Rank(out.severity) && EndOf(f) <= EndOf(out))
    && (exists f :: f in parts && f.severity == out.severity)
    && (exists f :: f in parts && EndOf(f) == EndOf(out))
  }

  /** The output names exactly the sources of its parts. */
  ghost predicate Sources(parts: seq<Finding>, out: Finding) {
    && (forall x :: x in Ids(out) <==> exists f :: f in parts && x in Ids(f))
    && (out.sourceFindingIds.Some? <==> exists f :: f in parts && f.sourceFindingIds.Some?)
    && (|parts| > 1 ==> Sorted(Ids(out), Self) && Distinct(Ids(out)))
  }

  /** A key that reads back as itself. */
  predicate Stable(key: Text) {
    VoteKey(Some(key), None) == Some(key)
  }

  ghost predicate StableKeys(f: Finding) {
    forall x | x in GetProviderVoteKeys(f) :: Stable(x)
  }

  /** The output holds exactly the vote keys of its parts, if those read back as themselves. */
  ghost predicate Votes(parts: seq<Finding>, out: Finding) {
    (forall f | f in parts :: StableKeys(f)) ==>
      && StableKeys(out)
      && (forall x :: x in out.providerVoteKeys <==> exists f :: f in parts && x in GetProviderVoteKeys(f))
      && (forall x :: x in out.providerVoteKeys <==> x in GetProviderVoteKeys(out))
  }

  ghost predicate Keeps(m: Rules, fs: seq<Finding>, c: Cluster) {
    Ordered(|fs|, c.members) &&
    var parts := Parts(fs, c.members);
    Maxima(m, parts, c.out) && Sources(parts, c.out) && Votes(parts, c.out)
  }

  // ---- single steps ----

  lemma SingleKeeps(m: Rules, f: Finding)
    ensures var out := WithProviderVoteKeys(f);
      Maxima(m, [f], out) && Sources([f], out) && Votes([f], out)
  {
    hide GetProviderVoteKeys, Stable;
    var out := WithProviderVoteKeys(f);
    if StableKeys(f) {
      StableReadBack(out);
    }
    assert f in [f] && forall g :: g in [f] <==> g == f;
  }

  lemma ReadFrom(keys: seq<Text>, x: Text)
    ensures x in KeysOfKeys(keys) <==> exists y :: y in keys && VoteKey(Some(y), None) == Some(x)
  {
    hide VoteKey;
    var read := Normalized(keys);
    if Some(x) in read {
      var i :| 0 <= i < |read| && read[i] == Some(x);
      assert keys[i] in keys;
    }
    if y :| y in keys && VoteKey(Some(y), None) == Some(x) {
      var i :| 0 <= i < |keys| && keys[i] == y;
      assert read[i] == Some(x);
    }
  }

  lemma StableKeysRead(keys: seq<Text>)
    requires forall x | x in keys :: Stable(x)
    ensures forall x :: x in KeysOfKeys(keys) <==> x in keys
  {
    hide VoteKey, KeysOfKeys;
    forall x ensures x in KeysOfKeys(keys) <==> x in keys {
      ReadFrom(keys, x);
    }
  }

  /** Stable keys that are stored are the keys that are read. */
  lemma StableReadBack(f: Finding)
    requires f.providerVoteKeys != [] && forall x | x in f.providerVoteKeys :: Stable(x)
    ensures forall x :: x in GetProviderVoteKeys(f) <==> x in f.providerVoteKeys
  {
    hide VoteKey, KeysOfKeys, Stable;
    StableKeysRead(f.providerVoteKeys);
    assert f.providerVoteKeys[0] in Unique(KeysOfKeys(f.providerVoteKeys));
  }

  lemma Appended(parts: seq<Finding>, f: Finding)
    ensures forall g :: g in parts + [f] <==> g in parts || g == f
  {
  }

  lemma MergeMaxima(m: Rules, parts: seq<Finding>, e: Finding, f: Finding)
    requires GoodRules(m) && Maxima(m, parts, e) && m.isDuplicate(e, f)
    ensures Maxima(m, parts + [f], Merge(m, e, f))
  {
    var out := Merge(m, e, f);
    MergedFields(m, e, f);
    hide Merge, EndOf;
    Appended(parts, f);
    assert m.normalizeFile(e.file) == m.normalizeFile(f.file);
    var s :| s in parts && s.severity == e.severity;
    var l :| l in parts && EndOf(l) == EndOf(e);
    assert s in parts + [f] && l in parts + [f] && f in parts + [f];
  }

  lemma MergedFields(m: Rules, e: Finding, f: Finding)
    ensures var out := Merge(m, e, f);
      && out.file == e.file
      && EndOf(out) == Max(EndOf(e), EndOf(f))
      && out.severity == (if Rank(f.severity) > Rank(e.severity) then f.severity else e.severity)
      && out.providerVoteKeys == Unique(GetProviderVoteKeys(e) + GetProviderVoteKeys(f))
  {
    hide GetProviderVoteKeys, Unique, Sort;
  }

  lemma MergeSources(m: Rules, parts: seq<Finding>, e: Finding, f: Finding)
    requires Sources(parts, e)
    ensures Sources(parts + [f], Merge(m, e, f))
  {
    hide Merge, Sorted, Distinct, Ids;
    MergedIds(m, e, f);
    var out, longer := Merge(m, e, f), parts + [f];
    Appended(parts, f);
    forall x ensures x in Ids(out) <==> exists g :: g in longer && x in Ids(g) {
      if g :| g in longer && x in Ids(g) {
        assert g in parts || g == f;
      }
      if x in Ids(out) {
        if x in Ids(f) {
          assert f in longer;
        } else {
          var g :| g in parts && x in Ids(g);
          assert g in longer;
        }
      }
    }
    assert f in longer;
    if g :| g in parts && g.sourceFindingIds.Some? {
      assert g in longer;
    }
  }

  lemma MergedIds(m: Rules, e: Finding, f: Finding)
    ensures var out := Merge(m, e, f);
      && (forall x :: x in Ids(out) <==> x in Ids(e) || x in Ids(f))
      && (out.sourceFindingIds.Some? <==> e.sourceFindingIds.Some? || f.sourceFindingIds.Some?)
      && Sorted(Ids(out), Self) && Distinct(Ids(out))
  {
    hide GetProviderVoteKeys;
    if e.sourceFindingIds.Some? || f.sourceFindingIds.Some? {
      var both := Unique(Ids(e) + Ids(f));
      SortSorts(both, Self);
      UniqueDistinct(Ids(e) + Ids(f));
      DistinctIgnoresOrder(both, Sort(both, Self));
      forall x ensures x in Sort(both, Self) <==> x in both {
        SameMultisetSameMembers(Sort(both, Self), both, x);
      }
    }
  }

  lemma MergeVotes(m: Rules, parts: seq<Finding>, e: Finding, f: Finding)
    requires parts != [] && Votes(parts, e)
    ensures Votes(parts + [f], Merge(m, e, f))
  {
    hide Merge, GetProviderVoteKeys, Unique, Stable;
    var out, longer := Merge(m, e, f), parts + [f];
    MergedFields(m, e, f);
    Appended(parts, f);
    var keys := GetProviderVoteKeys(e) + GetProviderVoteKeys(f);
    assert keys[0] in out.providerVoteKeys;
    if forall g | g in longer :: StableKeys(g) {
      assert f in longer && StableKeys(f);
      forall g | g in parts ensures StableKeys(g) {
        assert g in longer;
      }
      forall x ensures x in out.providerVoteKeys <==> exists g :: g in longer && x in GetProviderVoteKeys(g) {
        assert x in out.providerVoteKeys <==> x in GetProviderVoteKeys(e) || x in GetProviderVoteKeys(f);
        if x in GetProviderVoteKeys(e) {
          var g :| g in parts && x in GetProviderVoteKeys(g);
          assert g in longer;
        }
      }
      assert forall x | x in out.providerVoteKeys :: Stable(x);
      StableReadBack(out);
    }
  }

  lemma PartsExtend(fs: seq<Finding>, n: nat, members: seq<nat>)
    requires n < |fs| && Ordered(n, members)
    ensures Ordered(n + 1, members + [n])
    ensures Parts(fs[..n + 1], members + [n]) == Parts(fs[..n], members) + [fs[n]]
    ensures Parts(fs[..n + 1], members) == Parts(fs[..n], members)
  {
    Extended(n, members);
    forall i | 0 <= i < |members| ensures members[i] < n {
      assert members[i] in members;
    }
  }

  lemma PlacedKeeps(m: Rules, fs: seq<Finding>, cs: seq<Cluster>, n: nat)
    requires GoodRules(m) && n < |fs|
    requires forall c | c in cs :: Keeps(m, fs[..n], c)
    ensures forall c | c in Placed(m, cs, fs[n], n) :: Keeps(m, fs[..n + 1], c)
  {
    hide Merge, WithProviderVoteKeys, Ordered, Maxima, Sources, Votes, Parts;
    var at := FirstDuplicate(m, cs, fs[n]);
    forall c | c in cs ensures Keeps(m, fs[..n + 1], c) && Ordered(n + 1, c.members + [n]) {
      assert Keeps(m, fs[..n], c);
      Extended(n, c.members);
      PartsExtend(fs, n, c.members);
    }
    if at == |cs| {
      SingleOrdered(n);
      SingleKeeps(m, fs[n]);
      OnePart(fs, n);
    } else {
      var c := cs[at];
      assert c in cs && Keeps(m, fs[..n], c);
      SomeMember(n, c.members);
      var parts := Parts(fs[..n], c.members);
      PartsExtend(fs, n, c.members);
      MergeMaxima(m, parts, c.out, fs[n]);
      MergeSources(m, parts, c.out, fs[n]);
      MergeVotes(m, parts, c.out, fs[n]);
    }
  }

  lemma SomeMember(n: nat, members: seq<nat>)
    requires Ordered(n, members)
    ensures members != [] && forall k | k in members :: k < n
  {
  }

  lemma OnePart(fs: seq<Finding>, n: nat)
    requires n < |fs|
    ensures Parts(fs[..n + 1], [n]) == [fs[n]]
  {
  }

  /** Every output lies in the file of the findings that went into it, carries their largest severity and
      end line, exactly their sources, and, if their vote keys read back as themselves, exactly their votes. */
  lemma {:induction false} OutputsKeep(m: Rules, findings: seq<Finding>)
    requires GoodRules(m)
    ensures forall c | c in Clusters(m, findings) :: Keeps(m, findings, c)
  {
    hide Keeps, Placed;
    if findings != [] {
      var n := |findings| - 1;
      OutputsKeep(m, findings[..n]);
      PlacedKeeps(m, findings, Clusters(m, findings[..n]), n);
      assert findings[..n + 1] == findings;
    }
  }

  // ---- where it falls short ----

  /** The merged anchor line is the smaller one exactly when one of the two has a start line or both lie on
      the same line; otherwise it moves to the larger line. */
  lemma AnchorIsMinIff(m: Rules, e: Finding, f: Finding)
    ensures Anchor(Merge(m, e, f)) == Min(Anchor(e), Anchor(f))
       <==> e.startLine.Some? || f.startLine.Some? || e.line == f.line
  {
    hide GetProviderVoteKeys, Unique, Sort;
  }

  /** Reading a key back gives the key or a shorter one. */
  lemma ReadBackShrinks(key: Text)
    ensures VoteKey(Some(key), None).Some? ==>
      var k := VoteKey(Some(key), None).value;
      k == key || |k| < |key|
  {
    StripShrinks(key);
  }

  lemma StripShrinks(t: Text)
    ensures Strip(t) == t || |Strip(t)| < |t|
  {
    var s := TrimStart(t);
    TrimStartShrinks(t);
    TrimEndShrinks(s);
  }

  lemma TrimStartShrinks(t: Text)
    ensures TrimStart(t) == t || |TrimStart(t)| < |t|
  {
    if t != [] && Space(t[0]) {
      TrimStartShrinks(t[1..]);
    }
  }

  lemma TrimEndShrinks(t: Text)
    ensures TrimEnd(t) == t || |TrimEnd(t)| < |t|
  {
  }

  /** Stored keys are read back as the same set exactly when each of them reads back as itself. */
  lemma ReadBackIff(keys: seq<Text>)
    ensures (forall x :: x in KeysOfKeys(keys) <==> x in keys) <==> (forall x | x in keys :: Stable(x))
  {
    hide VoteKey, KeysOfKeys, Stable;
    if forall x | x in keys :: Stable(x) {
      StableKeysRead(keys);
    }
    if forall x :: x in KeysOfKeys(keys) <==> x in keys {
      forall x | x in keys ensures Stable(x) {
        LongestFirst(keys, x);
      }
    }
  }

  function Longest(keys: seq<Text>): (n: nat)
    ensures forall x | x in keys :: |x| <= n
  {
    if keys == [] then 0
    else
      var n := Longest(keys[1..]);
      assert keys == [keys[0]] + keys[1..];
      if |keys[0]| > n then |keys[0]| else n
  }

  /** A key can only come from itself or from a longer one, and the longer ones give themselves. */
  lemma {:induction false} LongestFirst(keys: seq<Text>, x: Text)
    requires x in keys && forall k | k in keys :: k in KeysOfKeys(keys)
    ensures Stable(x)
    decreases Longest(keys) - |x|
  {
    hide VoteKey, KeysOfKeys;
    ReadFrom(keys, x);
    var y :| y in keys && VoteKey(Some(y), None) == Some(x);
    ReadBackShrinks(y);
    if y != x {
      LongestFirst(keys, y);
      assert false;
    }
  }

  // ---- votes over a cluster ----

  /** The output of a cluster: the first finding with its vote keys stored, and the others merged into it. */
  function Fold(m: Rules, parts: seq<Finding>): Finding
    requires parts != []
  {
    var last := |parts| - 1;
    if last == 0 then WithProviderVoteKeys(parts[0]) else Merge(m, Fold(m, parts[..last]), parts[last])
  }

  ghost predicate Folded(m: Rules, fs: seq<Finding>, c: Cluster) {
    Ordered(|fs|, c.members) && c.out == Fold(m, Parts(fs, c.members))
  }

  /** Every output is the fold of the findings that went into it. */
  lemma {:induction false} OutputIsFold(m: Rules, findings: seq<Finding>)
    ensures forall c | c in Clusters(m, findings) :: Folded(m, findings, c)
  {
    hide Folded, Placed;
    if findings != [] {
      var n := |findings| - 1;
      OutputIsFold(m, findings[..n]);
      PlacedFolds(m, findings, Clusters(m, findings[..n]), n);
      assert findings[..n + 1] == findings;
    }
  }

  lemma PlacedFolds(m: Rules, fs: seq<Finding>, cs: seq<Cluster>, n: nat)
    requires n < |fs| && forall c | c in cs :: Folded(m, fs[..n], c)
    ensures forall c | c in Placed(m, cs, fs[n], n) :: Folded(m, fs[..n + 1], c)
  {
    hide Merge, WithProviderVoteKeys, Ordered, Parts, Fold;
    var at := FirstDuplicate(m, cs, fs[n]);
    forall c | c in cs ensures Folded(m, fs[..n + 1], c) && Ordered(n + 1, c.members + [n]) {
      assert Folded(m, fs[..n], c);
      Extended(n, c.members);
      PartsExtend(fs, n, c.members);
    }
    if at == |cs| {
      SingleOrdered(n);
      OnePart(fs, n);
      FoldOne(m, fs[n]);
    } else {
      var c := cs[at];
      assert c in cs && Folded(m, fs[..n], c);
      SomeMember(n, c.members);
      PartsExtend(fs, n, c.members);
      FoldMore(m, Parts(fs[..n], c.members), fs[n]);
    }
  }

  lemma FoldOne(m: Rules, f: Finding)
    ensures Fold(m, [f]) == WithProviderVoteKeys(f)
  {
  }

  lemma FoldMore(m: Rules, parts: seq<Finding>, f: Finding)
    requires parts != []
    ensures Fold(m, parts + [f]) == Merge(m, Fold(m, parts), f)
  {
    hide Merge;
    assert (parts + [f])[..|parts|] == parts;
  }

  ghost predicate AllStable(fs: seq<Finding>) {
    forall f | f in fs :: StableKeys(f)
  }

  /** The output holds the vote keys of its parts, each of them and no other. */
  ghost predicate ExactVotes(m: Rules, parts: seq<Finding>)
    requires parts != []
  {
    forall x :: x in Fold(m, parts).providerVoteKeys <==> exists f :: f in parts && x in GetProviderVoteKeys(f)
  }

  lemma {:induction false} FoldVotes(m: Rules, parts: seq<Finding>)
    requires parts != []
    ensures Votes(parts, Fold(m, parts))
  {
    hide Merge, WithProviderVoteKeys, Votes;
    var last := |parts| - 1;
    if last == 0 {
      SingleKeeps(m, parts[0]);
      assert parts == [parts[0]];
    } else {
      FoldVotes(m, parts[..last]);
      MergeVotes(m, parts[..last], Fold(m, parts[..last]), parts[last]);
      assert parts[..last] + [parts[last]] == parts;
    }
  }

  /** When the votes of a cluster survive: whatever findings with stable keys are merged into it as well, the output
      holds exactly the vote keys of all its parts, if and only if every key of the cluster reads back as itself. */
  lemma VotesSurviveIff(m: Rules, parts: seq<Finding>)
    requires parts != []
    ensures (forall more: seq<Finding> :: AllStable(more) ==> ExactVotes(m, parts + more)) <==> AllStable(parts)
  {
    hide Fold, StableKeys;
    if AllStable(parts) {
      forall more: seq<Finding> | AllStable(more) ensures ExactVotes(m, parts + more) {
        FoldVotes(m, parts + more);
        VotesAreExact(m, parts + more);
      }
    } else {
      var more := LosingMore(m, parts);
      assert AllStable(more) && !ExactVotes(m, parts + more);
    }
  }

  lemma VotesAreExact(m: Rules, parts: seq<Finding>)
    requires parts != [] && AllStable(parts) && Votes(parts, Fold(m, parts))
    ensures ExactVotes(m, parts)
  {
    hide Fold, StableKeys, GetProviderVoteKeys;
  }

  /** One or two findings with long keys make a cluster with an unstable key lose one: the unread key beside a key
      that is read, or else every key as soon as a longer one is stored beside them. */
  lemma LosingMore(m: Rules, parts: seq<Finding>) returns (more: seq<Finding>)
    requires parts != [] && !AllStable(parts)
    ensures AllStable(more) && !ExactVotes(m, parts + more)
  {
    hide Fold, Stable, GetProviderVoteKeys, Merge, KeysOfKeys;
    var out := Fold(m, parts);
    var keys := out.providerVoteKeys;
    assert parts + [] == parts;
    if !ExactVotes(m, parts) {
      return [];
    }
    var f :| f in parts && !StableKeys(f);
    var k :| k in GetProviderVoteKeys(f) && !Stable(k);
    assert k in keys;
    var n := Longest(keys) + 1;
    var g, h := Voting(n), Voting(n + 1);
    FoldMore(m, parts, g);
    MergedFields(m, out, g);
    if KeysOfKeys(keys) != [] {
      var x := UnreadKey(keys);
      ReadsOwn(out);
      assert x !in Fold(m, parts + [g]).providerVoteKeys;
      KeyOfParts(m, parts, [g], x);
      return [g];
    }
    if !ExactVotes(m, parts + [g]) {
      return [g];
    }
    FoldMore(m, parts + [g], h);
    assert parts + [g] + [h] == parts + [g, h];
    AfterLetters(m, parts, g, n);
    MergedFields(m, Fold(m, parts + [g]), h);
    assert k !in Fold(m, parts + [g, h]).providerVoteKeys;
    KeyOfParts(m, parts, [g, h], k);
    return [g, h];
  }

  lemma KeyOfParts(m: Rules, parts: seq<Finding>, more: seq<Finding>, x: Text)
    requires parts != [] && ExactVotes(m, parts)
    requires x in Fold(m, parts).providerVoteKeys && x !in Fold(m, parts + more).providerVoteKeys
    ensures !ExactVotes(m, parts + more)
  {
    hide Fold, GetProviderVoteKeys;
    var f :| f in parts && x in GetProviderVoteKeys(f);
    assert f in parts + more;
  }

  /** Beside unread keys a longer stable one is all that is read. */
  lemma AfterLetters(m: Rules, parts: seq<Finding>, g: Finding, n: nat)
    requires parts != [] && ExactVotes(m, parts) && ExactVotes(m, parts + [g])
    requires KeysOfKeys(Fold(m, parts).providerVoteKeys) == []
    requires n > 0 && GetProviderVoteKeys(g) == [Letters(n)]
    ensures forall x :: x in GetProviderVoteKeys(Fold(m, parts + [g])) <==> x == Letters(n)
  {
    hide Fold, VoteKey, KeysOfKeys, GetProviderVoteKeys, KeysOfProviders;
    var before, after := Fold(m, parts).providerVoteKeys, Fold(m, parts + [g]).providerVoteKeys;
    Appended(parts, g);
    forall x ensures x in after <==> x in before || x == Letters(n) {
      if f :| f in parts && x in GetProviderVoteKeys(f) {
        assert f in parts + [g];
      }
      assert g in parts + [g];
    }
    LettersAreStable(n);
    forall x ensures x in KeysOfKeys(after) <==> x == Letters(n) {
      ReadFrom(after, x);
      ReadFrom(before, x);
    }
    assert Letters(n) in KeysOfKeys(after);
    ReadsOwn(Fold(m, parts + [g]));
  }

  // ---- the votes of one cluster ----

  /** A key after it has been stored and read so many times, if it is still one. */
  function ReadTimes(n: nat, key: Text): Option<Text> {
    if n == 0 then Some(key)
    else
      var before := ReadTimes(n - 1, key);
      if before.None? then None else VoteKey(before, None)
  }

  /** A key of part i, read once for each merge that follows its own. */
  ghost predicate Left(parts: seq<Finding>, i: nat, y: Text, x: Text) {
    i < |parts| && y in GetProviderVoteKeys(parts[i]) && ReadTimes(|parts| - 1 - i, y) == Some(x)
  }

  ghost predicate Remains(parts: seq<Finding>, x: Text) {
    exists i: nat, y :: Left(parts, i, y, x)
  }

  /** Some key of the first part is still one after every merge. */
  ghost predicate Lasts(parts: seq<Finding>)
    requires parts != []
  {
    exists y :: y in GetProviderVoteKeys(parts[0]) && ReadTimes(|parts| - 1, y).Some?
  }

  /** The vote keys of an output are those of its parts, each read once for every merge that follows its own. */
  lemma {:induction false} KeysOfFold(m: Rules, parts: seq<Finding>)
    requires parts != [] && Lasts(parts)
    ensures forall x :: x in Fold(m, parts).providerVoteKeys <==> Remains(parts, x)
  {
    hide Fold, GetProviderVoteKeys, ReadTimes;
    var last := |parts| - 1;
    if last == 0 {
      assert parts == [parts[0]];
      FoldOne(m, parts[0]);
      NeverRead();
      forall x ensures x in GetProviderVoteKeys(parts[0]) <==> Remains(parts, x) {
        if x in GetProviderVoteKeys(parts[0]) {
          assert Left(parts, 0, x, x);
        }
      }
    } else {
      var front, f := parts[..last], parts[last];
      assert parts == front + [f];
      FoldMore(m, front, f);
      LastsBefore(parts);
      KeysOfFold(m, front);
      MergedFields(m, Fold(m, front), f);
      forall x ensures x in Fold(m, parts).providerVoteKeys <==> Remains(parts, x) {
        OneMoreReading(m, parts, x);
      }
    }
  }

  lemma NeverRead()
    ensures forall x :: ReadTimes(0, x) == Some(x)
  {
  }

  lemma LastsBefore(parts: seq<Finding>)
    requires |parts| > 1 && Lasts(parts)
    ensures Lasts(parts[..|parts| - 1])
  {
    hide GetProviderVoteKeys;
    var y :| y in GetProviderVoteKeys(parts[0]) && ReadTimes(|parts| - 1, y).Some?;
    assert ReadTimes(|parts| - 2, y).Some?;
    assert parts[..|parts| - 1][0] == parts[0];
  }

  lemma OneMoreReading(m: Rules, parts: seq<Finding>, x: Text)
    requires |parts| > 1 && Lasts(parts)
    requires var front := parts[..|parts| - 1];
      && (forall z :: z in Fold(m, front).providerVoteKeys <==> Remains(front, z))
      && (x in Fold(m, parts).providerVoteKeys <==>
            x in GetProviderVoteKeys(Fold(m, front)) || x in GetProviderVoteKeys(parts[|parts| - 1]))
    ensures x in Fold(m, parts).providerVoteKeys <==> Remains(parts, x)
  {
    hide Fold, GetProviderVoteKeys, VoteKey, KeysOfKeys;
    var last := |parts| - 1;
    var front := parts[..last];
    var stored := Fold(m, front).providerVoteKeys;
    var first :| first in GetProviderVoteKeys(parts[0]) && ReadTimes(last, first).Some?;
    var z0 := ReadTimes(last - 1, first).value;
    assert Left(front, 0, first, z0);
    ReadFrom(stored, ReadTimes(last, first).value);
    ReadsOwn(Fold(m, front));
    ReadFrom(stored, x);
    if x in GetProviderVoteKeys(Fold(m, front)) {
      var z :| z in stored && VoteKey(Some(z), None) == Some(x);
      var i: nat, y :| Left(front, i, y, z);
      assert Left(parts, i, y, x);
    }
    if x in GetProviderVoteKeys(parts[last]) {
      assert Left(parts, last, x, x);
    }
    if i: nat, y :| Left(parts, i, y, x) {
      if i < last {
        var z := ReadTimes(last - 1 - i, y).value;
        assert Left(front, i, y, z);
      }
    }
  }

  /** When the output of one cluster holds exactly the votes of its parts: if and only if each key is what some key is
      read as after the merges that follow it, and each key that remains so is one of them. */
  lemma OwnVotesIff(m: Rules, parts: seq<Finding>)
    requires parts != [] && Lasts(parts)
    ensures ExactVotes(m, parts) <==>
      && (forall f, x :: f in parts && x in GetProviderVoteKeys(f) ==> Remains(parts, x))
      && (forall x :: Remains(parts, x) ==> exists f :: f in parts && x in GetProviderVoteKeys(f))
  {
    hide Fold, GetProviderVoteKeys, Remains, Lasts;
    KeysOfFold(m, parts);
  }

  /** A finding that votes with one key of the given length. */
  function Voting(n: nat): (g: Finding)
    requires n > 0
    ensures GetProviderVoteKeys(g) == [Letters(n)] && StableKeys(g)
  {
    LettersAreStable(n);
    var g := Finding(None, [], None, 0, None, Minor, [], [], None, None, [], None, [], [Letters(n)], None);
    StoredOne(g, Letters(n), Letters(n));
    g
  }

  /** Keys of any length that read back as themselves. */
  function Letters(n: nat): Text {
    seq(n, _ => 0x61)
  }

  lemma LettersAreStable(n: nat)
    requires n > 0
    ensures Stable(Letters(n))
  {
    var t := Letters(n);
    assert t[0] == 0x61 && t[n - 1] == 0x61;
    assert TrimStart(t) == t && TrimEnd(t) == t && TrailingDigits(t) == 0;
  }

  /** Where a stored key reads back, the stored keys are what is read. */
  lemma ReadsOwn(f: Finding)
    requires KeysOfKeys(f.providerVoteKeys) != []
    ensures forall x :: x in GetProviderVoteKeys(f) <==> x in KeysOfKeys(f.providerVoteKeys)
  {
    hide KeysOfKeys, KeysOfProviders;
    var read := KeysOfKeys(f.providerVoteKeys);
    assert read[0] in Unique(read);
  }

  lemma UnreadKey(keys: seq<Text>) returns (x: Text)
    requires exists k :: k in keys && !Stable(k)
    ensures x in keys && x !in KeysOfKeys(keys)
  {
    hide Stable, KeysOfKeys;
    if forall k | k in keys :: k in KeysOfKeys(keys) {
      var k :| k in keys && !Stable(k);
      LongestFirst(keys, k);
      assert false;
    } else {
      x :| x in keys && x !in KeysOfKeys(keys);
    }
  }

  /** A provider named `a#1#2` votes as `a#1`, but as `a` once it has been merged with another finding. */
  lemma DoubleSuffixVoteChanges(m: Rules, f: Finding, g: Finding)
    requires f.provider == Some(U("a#1#2")) && f.providers == [] && f.providerModels == [] && f.providerVoteKeys == []
    requires GetProviderVoteKeys(g) == [U("b")]
    ensures GetProviderVoteKeys(f) == [U("a#1")]
    ensures forall x :: x in Merge(m, WithProviderVoteKeys(f), g).providerVoteKeys <==> x in {U("a"), U("b")}
  {
    hide GetProviderVoteKeys, Merge, VoteKey;
    StripOnce(f.actualModel);
    StripTwice();
    NamedBy(f, U("a#1"));
    StoredOne(WithProviderVoteKeys(f), U("a#1"), U("a"));
    MergedFields(m, WithProviderVoteKeys(f), g);
  }

  lemma NamedBy(f: Finding, key: Text)
    requires f.provider.Some? && f.providers == [] && f.providerModels == [] && f.providerVoteKeys == []
    requires VoteKey(f.provider, f.actualModel) == Some(key)
    ensures GetProviderVoteKeys(f) == [key]
  {
    hide VoteKey;
    assert ModelKeys([]) + NameKeys(f) + [PrimaryKey(f)] == [Some(key)];
    assert Normalized([]) == [];
    OneKey(key);
  }

  lemma StoredOne(f: Finding, key: Text, read: Text)
    requires f.providerVoteKeys == [key] && VoteKey(Some(key), None) == Some(read)
    ensures GetProviderVoteKeys(f) == [read]
  {
    hide VoteKey, KeysOfProviders;
    assert Normalized([key]) == [Some(read)];
    OneKey(read);
  }

  lemma OneKey(x: Text)
    ensures Present([Some(x)]) == [x] && Unique([x]) == [x]
  {
    assert [x][..0] == [];
  }

  lemma StripOnce(actualModel: Option<Text>)
    ensures VoteKey(Some(U("a#1#2")), actualModel) == Some(U("a#1"))
  {
    var t := U("a#1#2");
    assert t == [0x61, 0x23, 0x31, 0x23, 0x32];
    assert t[..4] == [0x61, 0x23, 0x31, 0x23] && t[..3] == U("a#1");
    assert TrimStart(t) == t && TrimEnd(t) == t;
    assert TrailingDigits(t[..4]) == 0 && TrailingDigits(t) == 1;
    assert Strip(t) == t[..3] && OPENROUTER[0] == 0x6F;
  }

  lemma StripTwice()
    ensures VoteKey(Some(U("a#1")), None) == Some(U("a"))
  {
    var t := U("a#1");
    assert t == [0x61, 0x23, 0x31];
    assert t[..2] == [0x61, 0x23] && t[..1] == U("a");
    assert TrimStart(t) == t && TrimEnd(t) == t;
    assert TrailingDigits(t[..2]) == 0 && TrailingDigits(t) == 1;
    assert Strip(t) == t[..1];
  }
}
