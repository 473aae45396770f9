/** What it takes for a thread to become a candidate for resolution, and what cannot make it one. */
module LifecycleLaws {
  import opened Options
  import opened Lists
  import opened Lifecycle

  // ---- the votes that were cast ----

  /** The provider cast this vote on one of the targets, in whatever order. */
  ghost predicate Cast(text: Text, input: Input, v: Vote) {
    exists r, raw ::
      && r in input.providerResults && Heard(input, r)
      && raw in r.revalidations && Assigned(r, raw.targetId)
      && NormalizeVote(text, input.targets, r.name, raw) == Some(v)
  }

  lemma VotesOfResultAreCast(text: Text, input: Input, r: ProviderResult, raws: seq<Revalidation>, v: Vote)
    ensures v in VotesOfResult(text, input, r, raws) <==>
      exists raw :: raw in raws && Assigned(r, raw.targetId)
        && NormalizeVote(text, input.targets, r.name, raw) == Some(v)
  {
    hide NormalizeVote, Assigned;
    if raws != [] {
      var last := |raws| - 1;
      VotesOfResultAreCast(text, input, r, raws[..last], v);
      assert raws == raws[..last] + [raws[last]];
    }
  }

  lemma AllVotesAreCast(text: Text, input: Input, results: seq<ProviderResult>, v: Vote)
    ensures v in AllVotes(text, input, results) <==>
      exists r, raw ::
        && r in results && Heard(input, r) && raw in r.revalidations && Assigned(r, raw.targetId)
        && NormalizeVote(text, input.targets, r.name, raw) == Some(v)
  {
    hide NormalizeVote, Assigned, Heard, VotesOfResult;
    if results != [] {
      var last := |results| - 1;
      AllVotesAreCast(text, input, results[..last], v);
      VotesOfResultAreCast(text, input, results[last], results[last].revalidations, v);
      assert results == results[..last] + [results[last]];
    }
  }

  // ---- folding keeps the safest vote of each provider ----

  ghost predicate OneEach(votes: seq<Vote>) {
    forall i, j :: 0 <= i < j < |votes| ==> votes[i].providerId != votes[j].providerId
  }

  /** `kept` holds, for each provider that voted on the target, one of its votes of the highest rank. */
  ghost predicate Safest(votes: seq<Vote>, id: string, kept: seq<Vote>) {
    && OneEach(kept)
    && (forall w | w in kept :: w in votes && w.targetId == id)
    && (forall v, w | v in votes && v.targetId == id && w in kept && w.providerId == v.providerId :: Rank(v) <= Rank(w))
    && (forall v | v in votes && v.targetId == id :: VotedBy(kept, v.providerId))
  }

  lemma PutVoteKeeps(votes: seq<Vote>, v: Vote)
    requires OneEach(votes)
    ensures var r := PutVote(votes, v);
      && OneEach(r)
      && (forall w | w in r :: w in votes || w == v)
      && (forall w | w in votes && w.providerId != v.providerId :: w in r)
      && (forall w | w in r :: w in votes || w.providerId == v.providerId)
      && (forall w | w in r && w.providerId != v.providerId :: w in votes)
      && (exists w :: w in r && w.providerId == v.providerId)
      && (forall w, u | w in r && u in votes && u.providerId == w.providerId :: Rank(u) <= Rank(w))
      && (forall w | w in r && w.providerId == v.providerId :: Rank(v) <= Rank(w))
  {
    hide Rank;
    var r := PutVote(votes, v);
    if votes == [] {
      assert v in r;
    } else if votes[0].providerId == v.providerId {
      assert r[0] in r;
      assert votes == [votes[0]] + votes[1..];
      SafestIsHigher(votes[0], v);
    } else {
      PutVoteKeeps(votes[1..], v);
      var tail := PutVote(votes[1..], v);
      assert votes == [votes[0]] + votes[1..];
      forall j | 0 <= j < |tail| ensures tail[j].providerId != votes[0].providerId {
        assert tail[j] in tail;
      }
    }
  }

  lemma SafestIsHigher(left: Vote, right: Vote)
    ensures Rank(SafestVote(left, right)) >= Rank(left) && Rank(SafestVote(left, right)) >= Rank(right)
    ensures SafestVote(left, right) in {left, right}
  {
  }

  lemma FoldIsSafest(votes: seq<Vote>, id: string)
    ensures Safest(votes, id, FoldVotes(votes, id))
  {
    hide Rank, PutVote;
    if votes != [] {
      var last := |votes| - 1;
      var v, before := votes[last], FoldVotes(votes[..last], id);
      FoldIsSafest(votes[..last], id);
      assert votes == votes[..last] + [v];
      if v.targetId == id {
        PutVoteKeeps(before, v);
        FoldStep(votes[..last], v, id, before, PutVote(before, v));
      }
    }
  }

  lemma FoldStep(votes: seq<Vote>, v: Vote, id: string, before: seq<Vote>, after: seq<Vote>)
    requires Safest(votes, id, before) && v.targetId == id
    requires OneEach(after)
    requires forall w | w in after :: w in before || w == v
    requires forall w | w in before && w.providerId != v.providerId :: w in after
    requires exists w :: w in after && w.providerId == v.providerId
    requires forall w, u | w in after && u in before && u.providerId == w.providerId :: Rank(u) <= Rank(w)
    requires forall w | w in after && w.providerId == v.providerId :: Rank(v) <= Rank(w)
    ensures Safest(votes + [v], id, after)
  {
    hide Rank;
    forall u | u in votes + [v] && u.targetId == id ensures VotedBy(after, u.providerId) {
      if u.providerId == v.providerId {
        var w :| w in after && w.providerId == v.providerId;
      } else {
        assert VotedBy(before, u.providerId);
        var i :| 0 <= i < |before| && before[i].providerId == u.providerId;
        assert before[i] in after;
      }
    }
    forall u, w | u in votes + [v] && u.targetId == id && w in after && w.providerId == u.providerId
      ensures Rank(u) <= Rank(w)
    {
      if u in votes {
        assert VotedBy(before, u.providerId);
        var i :| 0 <= i < |before| && before[i].providerId == u.providerId;
        assert before[i] in before;
      }
    }
  }

  // ---- counting providers ----

  function Planned(input: Input): set<string> {
    Members(input.plannedProviders)
  }

  ghost predicate CastOn(text: Text, input: Input, id: string, p: string, v: Vote) {
    Cast(text, input, v) && v.targetId == id && v.providerId == p
  }

  /** The provider voted on the target, and all its votes there are valid resolutions. */
  ghost predicate Resolves(text: Text, input: Input, id: string, p: string) {
    && (exists v :: CastOn(text, input, id, p, v))
    && forall v :: CastOn(text, input, id, p, v) ==> v.valid && v.verdict.Resolved?
  }

  ghost function Resolvers(text: Text, input: Input, id: string): set<string> {
    set p | p in input.plannedProviders && Resolves(text, input, id, p)
  }

  function VerdictProviders(votes: seq<Vote>, verdict: Verdict): set<string> {
    set v | v in votes && v.valid && v.verdict == verdict :: v.providerId
  }

  lemma ProvidersOfCons(head: Vote, tail: seq<Vote>, verdict: Verdict)
    ensures VerdictProviders([head] + tail, verdict)
         == VerdictProviders(tail, verdict) + (if head.valid && head.verdict == verdict then {head.providerId} else {})
  {
  }

  lemma HeadIsNew(head: Vote, tail: seq<Vote>, verdict: Verdict)
    requires OneEach([head] + tail)
    ensures head.providerId !in VerdictProviders(tail, verdict) && OneEach(tail)
  {
    var all := [head] + tail;
    forall j | 0 <= j < |tail| ensures tail[j].providerId != head.providerId {
      assert all[0].providerId != all[j + 1].providerId;
    }
    assert all[1..] == tail;
  }

  lemma {:induction false} CountIsSize(votes: seq<Vote>, verdict: Verdict)
    requires OneEach(votes)
    ensures CountVotes(votes, verdict) == |VerdictProviders(votes, verdict)|
  {
    hide VerdictProviders, OneEach;
    if votes == [] {
      NoProviders(verdict);
    } else {
      var head, tail := votes[0], votes[1..];
      assert votes == [head] + tail;
      HeadIsNew(head, tail, verdict);
      CountIsSize(tail, verdict);
      ProvidersOfCons(head, tail, verdict);
    }
  }

  lemma NoProviders(verdict: Verdict)
    ensures VerdictProviders([], verdict) == {}
  {
  }

  function Members<T>(s: seq<T>): set<T> {
    set x | x in s
  }

  lemma {:induction false} UniqueSize<T(!new)>(s: seq<T>)
    ensures |Unique(s)| == |Members(s)|
  {
    if s == [] {
      assert Members(s) == {};
    } else {
      var last := |s| - 1;
      UniqueSize(s[..last]);
      assert s == s[..last] + [s[last]];
      assert Members(s) == Members(s[..last]) + {s[last]};
      if s[last] in s[..last] {
        assert Members(s) == Members(s[..last]);
      } else {
        assert s[last] !in Members(s[..last]);
      }
    }
  }

  lemma VotesOnAreCast(text: Text, input: Input, id: string)
    ensures OneEach(VotesOn(text, input, id))
    ensures forall w | w in VotesOn(text, input, id) :: CastOn(text, input, id, w.providerId, w)
    ensures forall v: Vote, w: Vote | CastOn(text, input, id, w.providerId, v) && w in VotesOn(text, input, id) ::
      Rank(v) <= Rank(w)
    ensures forall p, v | CastOn(text, input, id, p, v) :: VotedBy(VotesOn(text, input, id), p)
  {
    hide Rank, AllVotes, FoldVotes;
    var all := AllVotes(text, input, input.providerResults);
    FoldIsSafest(all, id);
    forall v ensures v in all <==> Cast(text, input, v) {
      AllVotesAreCast(text, input, input.providerResults, v);
    }
  }

  lemma CastIsPlanned(text: Text, input: Input, v: Vote)
    requires Cast(text, input, v)
    ensures v.providerId in input.plannedProviders
  {
    var r, raw :| r in input.providerResults && Heard(input, r) && raw in r.revalidations
      && Assigned(r, raw.targetId) && NormalizeVote(text, input.targets, r.name, raw) == Some(v);
  }

  /** The resolved votes that survive folding are those of the providers that only resolve. */
  lemma ResolversCount(text: Text, input: Input, id: string)
    ensures CountVotes(VotesOn(text, input, id), Resolved) == |Resolvers(text, input, id)|
  {
    hide VotesOn, Cast;
    var kept := VotesOn(text, input, id);
    VotesOnAreCast(text, input, id);
    CountIsSize(kept, Resolved);
    forall p ensures p in VerdictProviders(kept, Resolved) <==> p in Resolvers(text, input, id) {
      if p in VerdictProviders(kept, Resolved) {
        var w :| w in kept && w.valid && w.verdict.Resolved? && w.providerId == p;
        assert Rank(w) == 1 && CastOn(text, input, id, p, w);
        CastIsPlanned(text, input, w);
        forall v | CastOn(text, input, id, p, v) ensures v.valid && v.verdict.Resolved? {
          assert Rank(v) <= Rank(w);
        }
      }
      if p in Resolvers(text, input, id) {
        var v :| CastOn(text, input, id, p, v);
        assert VotedBy(kept, p);
        var i :| 0 <= i < |kept| && kept[i].providerId == p;
        assert kept[i] in kept && CastOn(text, input, id, p, kept[i]);
      }
    }
    assert VerdictProviders(kept, Resolved) == Resolvers(text, input, id);
  }

  /** Some provider cast a valid vote that the finding still holds. */
  ghost predicate StillHeld(text: Text, input: Input, id: string) {
    exists p, v :: CastOn(text, input, id, p, v) && v.valid && v.verdict.StillValid?
  }

  lemma StillHeldCount(text: Text, input: Input, id: string)
    ensures CountVotes(VotesOn(text, input, id), StillValid) > 0 <==> StillHeld(text, input, id)
  {
    hide VotesOn, Cast;
    var kept := VotesOn(text, input, id);
    VotesOnAreCast(text, input, id);
    CountIsSize(kept, StillValid);
    if CountVotes(kept, StillValid) > 0 {
      var p :| p in VerdictProviders(kept, StillValid);
      var w :| w in kept && w.valid && w.verdict.StillValid? && w.providerId == p;
      assert CastOn(text, input, id, p, w);
    }
    if p, v :| CastOn(text, input, id, p, v) && v.valid && v.verdict.StillValid? {
      assert VotedBy(kept, p);
      var i :| 0 <= i < |kept| && kept[i].providerId == p;
      assert kept[i] in kept && Rank(v) == 3 && Rank(v) <= Rank(kept[i]);
      assert p in VerdictProviders(kept, StillValid);
    }
  }

  // ---- the bucket, declaratively ----

  ghost predicate EnoughResolvers(text: Text, input: Input, id: string) {
    if |Planned(input)| >= 2 then |Resolvers(text, input, id)| >= 2
    else |Planned(input)| == 1 && Resolvers(text, input, id) == Planned(input)
  }

  lemma QuorumIff(text: Text, input: Input, id: string)
    ensures Quorum(input, VotesOn(text, input, id)) <==> EnoughResolvers(text, input, id)
  {
    hide VotesOn, Resolves, Cast, Unique;
    ResolversCount(text, input, id);
    UniqueSize(input.plannedProviders);
    var resolvers, planned := Resolvers(text, input, id), Planned(input);
    assert resolvers <= planned;
    if |planned| == 1 && |resolvers| == 1 {
      SameSizeSubset(resolvers, planned);
    }
  }

  lemma SameSizeSubset<T>(a: set<T>, b: set<T>)
    requires a <= b && |a| == |b|
    ensures a == b
  {
    if a != b {
      var x :| x in b && x !in a;
      assert |b - {x}| == |b| - 1;
      SubsetSize(a, b - {x});
    }
  }

  lemma SubsetSize<T>(a: set<T>, b: set<T>)
    requires a <= b
    ensures |a| <= |b|
  {
    if a != {} {
      var x :| x in a;
      SubsetSize(a - {x}, b - {x});
    }
  }

  /** A thread becomes a candidate exactly when nobody but the bot spoke, no finding matches it, it is
      in scope, no provider still holds it, and two planned providers (or the only one) cast nothing but
      valid resolutions on it. No order of results or votes appears in the condition. */
  lemma CandidateIff(text: Text, input: Input, t: Target)
    ensures BucketOf(text, input, t) == Candidate <==>
      && !t.hasHumanReply && t.trustedAuthor
      && !CurrentFindingPresent(text, input, t) && !ProviderFindingPresent(text, input, t)
      && !OutOfScope(input, t)
      && !StillHeld(text, input, t.targetId)
      && EnoughResolvers(text, input, t.targetId)
      && !input.mode.Report?
  {
    hide VotesOn, Resolves, Cast, CurrentFindingPresent, ProviderFindingPresent, OutOfScope, StillHeld,
      EnoughResolvers, Quorum;
    QuorumIff(text, input, t.targetId);
    StillHeldCount(text, input, t.targetId);
  }

  /** A valid resolution names the target's own fingerprint or none, is confident enough for the
      target's severity, and brings concrete evidence. */
  lemma ResolutionIsFounded(text: Text, input: Input, v: Vote)
    requires Cast(text, input, v) && v.valid && v.verdict.Resolved?
    ensures TargetById(input.targets, v.targetId).Some?
    ensures var t := TargetById(input.targets, v.targetId).value;
      && v.raw.verdict == "resolved"
      && (v.raw.fingerprint.None? || v.raw.fingerprint.value == "" || v.raw.fingerprint.value == t.fingerprint)
      && Concrete(text, v.raw.evidence)
      && (if v.raw.confidence.Value? then text.threshold(t.severity) <= v.raw.confidence.value <= 1.0
          else v.raw.confidence.NotANumber? && text.threshold(t.severity) <= 0.0)
  {
    hide Concrete, Heard, Assigned, TargetById;
    var r, raw :| r in input.providerResults && Heard(input, r) && raw in r.revalidations
      && Assigned(r, raw.targetId) && NormalizeVote(text, input.targets, r.name, raw) == Some(v);
  }

  // ---- order does not matter ----

  /** The same votes were cast and the same findings reported, in whatever order. */
  ghost predicate SameWorld(text: Text, a: Input, b: Input) {
    && a.(providerResults := b.providerResults) == b
    && (forall v :: Cast(text, a, v) <==> Cast(text, b, v))
    && (forall t :: ProviderFindingPresent(text, a, t) <==> ProviderFindingPresent(text, b, t))
  }

  lemma SameWorldSameBucket(text: Text, a: Input, b: Input, t: Target)
    requires SameWorld(text, a, b)
    ensures BucketOf(text, a, t) == BucketOf(text, b, t)
  {
    hide VotesOn, Cast, CurrentFindingPresent, ProviderFindingPresent, OutOfScope, Quorum, StillHeld, EnoughResolvers;
    QuorumIff(text, a, t.targetId);
    QuorumIff(text, b, t.targetId);
    StillHeldCount(text, a, t.targetId);
    StillHeldCount(text, b, t.targetId);
    SameVotesSameQuorum(text, a, b, t.targetId);
    SameCurrent(text, a, b, t);
  }

  lemma SameCurrent(text: Text, a: Input, b: Input, t: Target)
    requires a.(providerResults := b.providerResults) == b
    ensures CurrentFindingPresent(text, a, t) == CurrentFindingPresent(text, b, t)
    ensures OutOfScope(a, t) == OutOfScope(b, t)
  {
  }

  lemma SameVotesSameQuorum(text: Text, a: Input, b: Input, id: string)
    requires SameWorld(text, a, b)
    ensures StillHeld(text, a, id) <==> StillHeld(text, b, id)
    ensures EnoughResolvers(text, a, id) <==> EnoughResolvers(text, b, id)
  {
    hide Cast, ProviderFindingPresent;
    assert forall p, v :: CastOn(text, a, id, p, v) <==> CastOn(text, b, id, p, v);
    assert forall p :: Resolves(text, a, id, p) <==> Resolves(text, b, id, p);
    assert Resolvers(text, a, id) == Resolvers(text, b, id);
  }

  /** Listing the provider results in another order changes no bucket. */
  lemma ResultOrderIgnored(text: Text, a: Input, results: seq<ProviderResult>, t: Target)
    requires multiset(a.providerResults) == multiset(results)
    ensures BucketOf(text, a, t) == BucketOf(text, a.(providerResults := results), t)
  {
    var b := a.(providerResults := results);
    forall r ensures r in a.providerResults <==> r in results {
      assert r in a.providerResults <==> r in multiset(a.providerResults);
      assert r in results <==> r in multiset(results);
    }
    ResultsByMembership(text, a, b);
    SameWorldSameBucket(text, a, b, t);
  }

  lemma ResultsByMembership(text: Text, a: Input, b: Input)
    requires a.(providerResults := b.providerResults) == b
    requires forall r :: r in a.providerResults <==> r in b.providerResults
    ensures SameWorld(text, a, b)
  {
    hide NormalizeVote;
    forall t ensures ProviderFindingPresent(text, a, t) <==> ProviderFindingPresent(text, b, t) {
      ProviderFindingByMembership(text, a, t);
      ProviderFindingByMembership(text, b, t);
    }
  }

  lemma ProviderFindingByMembership(text: Text, input: Input, t: Target)
    ensures ProviderFindingPresent(text, input, t) <==>
      exists r, f :: r in input.providerResults && f in r.findings && text.matches(f, t)
  {
    if r, f :| r in input.providerResults && f in r.findings && text.matches(f, t) {
      var i :| 0 <= i < |input.providerResults| && input.providerResults[i] == r;
      var j :| 0 <= j < |r.findings| && r.findings[j] == f;
      assert text.matches(input.providerResults[i].findings[j], t);
    }
  }

  /** Neither does the order of the revalidations within one result. */
  lemma RevalidationOrderIgnored(text: Text, a: Input, i: nat, raws: seq<Revalidation>, t: Target)
    requires i < |a.providerResults| && multiset(a.providerResults[i].revalidations) == multiset(raws)
    ensures var results := a.providerResults[i := a.providerResults[i].(revalidations := raws)];
      BucketOf(text, a, t) == BucketOf(text, a.(providerResults := results), t)
  {
    var old_ := a.providerResults[i];
    var new_ := old_.(revalidations := raws);
    var b := a.(providerResults := a.providerResults[i := new_]);
    forall raw ensures raw in old_.revalidations <==> raw in raws {
      assert raw in old_.revalidations <==> raw in multiset(old_.revalidations);
      assert raw in raws <==> raw in multiset(raws);
    }
    OneResultChanged(text, a, b, i);
    OneResultChanged(text, b, a, i);
    SameWorldSameBucket(text, a, b, t);
  }

  lemma OneResultChanged(text: Text, a: Input, b: Input, i: nat)
    requires i < |a.providerResults| == |b.providerResults|
    requires a.(providerResults := b.providerResults) == b
    requires forall j :: 0 <= j < |a.providerResults| && j != i ==> a.providerResults[j] == b.providerResults[j]
    requires var r, s := a.providerResults[i], b.providerResults[i];
      s == r.(revalidations := s.revalidations) && forall raw :: raw in r.revalidations ==> raw in s.revalidations
    ensures forall v :: Cast(text, a, v) ==> Cast(text, b, v)
    ensures forall t :: ProviderFindingPresent(text, a, t) ==> ProviderFindingPresent(text, b, t)
  {
    hide NormalizeVote;
    forall v | Cast(text, a, v) ensures Cast(text, b, v) {
      var r, raw :| r in a.providerResults && Heard(a, r) && raw in r.revalidations
        && Assigned(r, raw.targetId) && NormalizeVote(text, a.targets, r.name, raw) == Some(v);
      var j :| 0 <= j < |a.providerResults| && a.providerResults[j] == r;
      var s := b.providerResults[j];
      assert s in b.providerResults && Heard(b, s) && raw in s.revalidations && Assigned(s, raw.targetId)
        && NormalizeVote(text, b.targets, s.name, raw) == Some(v);
    }
    forall t | ProviderFindingPresent(text, a, t) ensures ProviderFindingPresent(text, b, t) {
      var j :| 0 <= j < |a.providerResults| &&
        exists k :: 0 <= k < |a.providerResults[j].findings| && text.matches(a.providerResults[j].findings[k], t);
      var k :| 0 <= k < |a.providerResults[j].findings| && text.matches(a.providerResults[j].findings[k], t);
      assert text.matches(b.providerResults[j].findings[k], t);
    }
  }

  // ---- more evidence against never makes a candidate ----

  /** `b` has at least the votes and findings of `a`, and every further vote is no valid resolution. */
  ghost predicate MoreAgainst(text: Text, a: Input, b: Input) {
    && a.(providerResults := b.providerResults, currentFindings := b.currentFindings) == b
    && (forall v :: Cast(text, a, v) ==> Cast(text, b, v))
    && (forall v :: Cast(text, b, v) && v.valid && v.verdict.Resolved? ==> Cast(text, a, v))
    && (forall t :: CurrentFindingPresent(text, a, t) ==> CurrentFindingPresent(text, b, t))
    && (forall t :: ProviderFindingPresent(text, a, t) ==> ProviderFindingPresent(text, b, t))
  }

  /** Votes that are not valid resolutions, and findings, only ever take candidates away. */
  lemma MoreAgainstNeverAdds(text: Text, a: Input, b: Input, t: Target)
    requires MoreAgainst(text, a, b)
    requires BucketOf(text, b, t) == Candidate
    ensures BucketOf(text, a, t) == Candidate
  {
    hide BucketOf, Cast, CurrentFindingPresent, ProviderFindingPresent;
    CandidateIff(text, a, t);
    CandidateIff(text, b, t);
    var id := t.targetId;
    assert forall p, v :: CastOn(text, a, id, p, v) ==> CastOn(text, b, id, p, v);
    forall p | Resolves(text, b, id, p) ensures Resolves(text, a, id, p) {
      var v :| CastOn(text, b, id, p, v);
      assert CastOn(text, a, id, p, v);
    }
    assert Resolvers(text, b, id) <= Resolvers(text, a, id);
    SubsetSize(Resolvers(text, b, id), Resolvers(text, a, id));
    assert Resolvers(text, a, id) <= Planned(a);
  }

  function InsertAt<T>(s: seq<T>, k: nat, x: T): seq<T>
    requires k <= |s|
  {
    s[..k] + [x] + s[k..]
  }

  /** One more revalidation anywhere in a result, if it does not count as a valid resolution, adds no candidate. */
  lemma ExtraVoteNeverAdds(text: Text, a: Input, i: nat, k: nat, raw: Revalidation, t: Target)
    requires i < |a.providerResults| && k <= |a.providerResults[i].revalidations|
    requires var v := NormalizeVote(text, a.targets, a.providerResults[i].name, raw);
      v.None? || !v.value.valid || !v.value.verdict.Resolved?
    requires var r := a.providerResults[i].(revalidations := InsertAt(a.providerResults[i].revalidations, k, raw));
      BucketOf(text, a.(providerResults := a.providerResults[i := r]), t) == Candidate
    ensures BucketOf(text, a, t) == Candidate
  {
    hide BucketOf, NormalizeVote;
    var old_ := a.providerResults[i];
    var r := old_.(revalidations := InsertAt(old_.revalidations, k, raw));
    var b := a.(providerResults := a.providerResults[i := r]);
    assert old_.revalidations == old_.revalidations[..k] + old_.revalidations[k..];
    assert forall x :: x in r.revalidations <==> x in old_.revalidations || x == raw;
    OneResultChanged(text, a, b, i);
    forall v | Cast(text, b, v) && v.valid && v.verdict.Resolved? ensures Cast(text, a, v) {
      var s, x :| s in b.providerResults && Heard(b, s) && x in s.revalidations
        && Assigned(s, x.targetId) && NormalizeVote(text, b.targets, s.name, x) == Some(v);
      var j :| 0 <= j < |b.providerResults| && b.providerResults[j] == s;
      var q := a.providerResults[j];
      assert q in a.providerResults && Heard(a, q) && x in q.revalidations && Assigned(q, x.targetId)
        && NormalizeVote(text, a.targets, q.name, x) == Some(v);
    }
    MoreAgainstNeverAdds(text, a, b, t);
  }

  /** Neither does one more current finding, wherever it is listed. */
  lemma ExtraFindingNeverAdds(text: Text, a: Input, k: nat, f: Finding, t: Target)
    requires k <= |a.currentFindings|
    requires BucketOf(text, a.(currentFindings := InsertAt(a.currentFindings, k, f)), t) == Candidate
    ensures BucketOf(text, a, t) == Candidate
  {
    hide BucketOf, NormalizeVote;
    var b := a.(currentFindings := InsertAt(a.currentFindings, k, f));
    forall u | CurrentFindingPresent(text, a, u) ensures CurrentFindingPresent(text, b, u) {
      var i :| 0 <= i < |a.currentFindings| &&
        (text.fingerprint(a.currentFindings[i]) == u.fingerprint || text.matches(a.currentFindings[i], u));
      assert b.currentFindings[if i < k then i else i + 1] == a.currentFindings[i];
    }
    MoreAgainstNeverAdds(text, a, b, t);
  }

  /** Nor one more finding of a provider. */
  lemma ExtraProviderFindingNeverAdds(text: Text, a: Input, i: nat, k: nat, f: Finding, t: Target)
    requires i < |a.providerResults| && k <= |a.providerResults[i].findings|
    requires var r := a.providerResults[i].(findings := InsertAt(a.providerResults[i].findings, k, f));
      BucketOf(text, a.(providerResults := a.providerResults[i := r]), t) == Candidate
    ensures BucketOf(text, a, t) == Candidate
  {
    hide BucketOf, NormalizeVote;
    var old_ := a.providerResults[i];
    var r := old_.(findings := InsertAt(old_.findings, k, f));
    var b := a.(providerResults := a.providerResults[i := r]);
    forall j | 0 <= j < |a.providerResults|
      ensures b.providerResults[j] == a.providerResults[j].(findings := b.providerResults[j].findings)
      ensures forall g | g in a.providerResults[j].findings :: g in b.providerResults[j].findings
    {
      assert old_.findings == old_.findings[..k] + old_.findings[k..];
    }
    SameVotes(text, a, b);
    SameVotes(text, b, a);
    MoreFindings(text, a, b);
    MoreAgainstNeverAdds(text, a, b, t);
  }

  lemma MoreFindings(text: Text, a: Input, b: Input)
    requires |a.providerResults| == |b.providerResults|
    requires forall j :: 0 <= j < |a.providerResults| ==>
      forall g | g in a.providerResults[j].findings :: g in b.providerResults[j].findings
    ensures forall u :: ProviderFindingPresent(text, a, u) ==> ProviderFindingPresent(text, b, u)
  {
    hide ProviderFindingPresent;
    forall u | ProviderFindingPresent(text, a, u) ensures ProviderFindingPresent(text, b, u) {
      ProviderFindingByMembership(text, a, u);
      ProviderFindingByMembership(text, b, u);
      var r, g :| r in a.providerResults && g in r.findings && text.matches(g, u);
      var j :| 0 <= j < |a.providerResults| && a.providerResults[j] == r;
      assert b.providerResults[j] in b.providerResults && g in b.providerResults[j].findings;
    }
  }

  lemma SameVotes(text: Text, a: Input, b: Input)
    requires |a.providerResults| == |b.providerResults| && a.(providerResults := b.providerResults) == b
    requires forall j :: 0 <= j < |a.providerResults| ==>
      b.providerResults[j] == a.providerResults[j].(findings := b.providerResults[j].findings)
    ensures forall v :: Cast(text, a, v) ==> Cast(text, b, v)
  {
    hide NormalizeVote;
    forall v | Cast(text, a, v) ensures Cast(text, b, v) {
      var r, raw :| r in a.providerResults && Heard(a, r) && raw in r.revalidations
        && Assigned(r, raw.targetId) && NormalizeVote(text, a.targets, r.name, raw) == Some(v);
      var j :| 0 <= j < |a.providerResults| && a.providerResults[j] == r;
      var s := b.providerResults[j];
      assert s in b.providerResults && Heard(b, s) && raw in s.revalidations && Assigned(s, raw.targetId)
        && NormalizeVote(text, b.targets, s.name, raw) == Some(v);
    }
  }

  /** Nor one more provider result, if none of its revalidations counts as a valid resolution. */
  lemma ExtraResultNeverAdds(text: Text, a: Input, k: nat, r: ProviderResult, t: Target)
    requires k <= |a.providerResults|
    requires forall raw | raw in r.revalidations ::
      var v := NormalizeVote(text, a.targets, r.name, raw); v.None? || !v.value.valid || !v.value.verdict.Resolved?
    requires BucketOf(text, a.(providerResults := InsertAt(a.providerResults, k, r)), t) == Candidate
    ensures BucketOf(text, a, t) == Candidate
  {
    hide BucketOf, NormalizeVote;
    var b := a.(providerResults := InsertAt(a.providerResults, k, r));
    assert a.providerResults == a.providerResults[..k] + a.providerResults[k..];
    assert forall s :: s in b.providerResults <==> s in a.providerResults || s == r;
    forall v | Cast(text, a, v) ensures Cast(text, b, v) {
      var s, raw :| s in a.providerResults && Heard(a, s) && raw in s.revalidations
        && Assigned(s, raw.targetId) && NormalizeVote(text, a.targets, s.name, raw) == Some(v);
      assert s in b.providerResults && Heard(b, s);
    }
    forall v | Cast(text, b, v) && v.valid && v.verdict.Resolved? ensures Cast(text, a, v) {
      var s, raw :| s in b.providerResults && Heard(b, s) && raw in s.revalidations
        && Assigned(s, raw.targetId) && NormalizeVote(text, b.targets, s.name, raw) == Some(v);
      assert s in a.providerResults && Heard(a, s);
    }
    forall u | ProviderFindingPresent(text, a, u) ensures ProviderFindingPresent(text, b, u) {
      ProviderFindingByMembership(text, a, u);
      ProviderFindingByMembership(text, b, u);
    }
    MoreAgainstNeverAdds(text, a, b, t);
  }

  // ---- every target is recorded once ----

  function TargetsOf(records: seq<ThreadRecord>): (targets: seq<Target>)
    ensures |targets| == |records| && forall i :: 0 <= i < |records| ==> targets[i] == records[i].target
  {
    seq(|records|, i requires 0 <= i < |records| => records[i].target)
  }

  lemma TargetsConcat(a: seq<ThreadRecord>, b: seq<ThreadRecord>)
    ensures TargetsOf(a + b) == TargetsOf(a) + TargetsOf(b)
  {
  }

  /** How often a bucket holds a target. */
  function Held(text: Text, input: Input, targets: seq<Target>, b: Bucket, x: Target): nat {
    multiset(TargetsOf(Select(text, input, targets, b)))[x]
  }

  lemma HeldOneMore(text: Text, input: Input, targets: seq<Target>, b: Bucket, x: Target)
    requires targets != []
    ensures var last := |targets| - 1;
      Held(text, input, targets, b, x)
      == Held(text, input, targets[..last], b, x)
         + (if BucketOf(text, input, targets[last]) == b && targets[last] == x then 1 else 0)
  {
    hide BucketOf, ReasonsOf, VotesOn;
    var last := |targets| - 1;
    TargetsConcat(Select(text, input, targets[..last], b), [RecordOf(text, input, targets[last])]);
    assert TargetsOf([RecordOf(text, input, targets[last])]) == [targets[last]];
  }

  lemma {:induction false} HeldOnce(text: Text, input: Input, targets: seq<Target>, x: Target)
    ensures Held(text, input, targets, Candidate, x) + Held(text, input, targets, Valid, x)
          + Held(text, input, targets, Unsure, x) + Held(text, input, targets, Manual, x)
          + Held(text, input, targets, ReportOnly, x) == multiset(targets)[x]
  {
    if targets == [] {
      NothingSelected(text, input);
    } else {
      hide BucketOf, Held, Select, TargetsOf;
      var last := |targets| - 1;
      HeldOnce(text, input, targets[..last], x);
      HeldOneMore(text, input, targets, Candidate, x);
      HeldOneMore(text, input, targets, Valid, x);
      HeldOneMore(text, input, targets, Unsure, x);
      HeldOneMore(text, input, targets, Manual, x);
      HeldOneMore(text, input, targets, ReportOnly, x);
      CountLast(targets, x);
    }
  }

  lemma CountLast<T>(s: seq<T>, x: T)
    requires s != []
    ensures multiset(s)[x] == multiset(s[..|s| - 1])[x] + (if s[|s| - 1] == x then 1 else 0)
  {
    assert s == s[..|s| - 1] + [s[|s| - 1]];
  }

  lemma NothingSelected(text: Text, input: Input)
    ensures forall b, x :: Held(text, input, [], b, x) == 0
  {
  }

  /** Whether the inventory loaded or not, the result's buckets hold each target as often as the input lists it, beside
      the threads that were set aside for manual attention before. */
  lemma EveryTargetOnce(text: Text, input: Input)
    ensures var r := Aggregate(text, input);
      multiset(TargetsOf(r.resolvedCandidates)) + multiset(TargetsOf(r.previousStillValid))
      + multiset(TargetsOf(r.previousUncertain)) + multiset(TargetsOf(r.manualAttention))
      + multiset(TargetsOf(r.mutationSkipped))
      == multiset(input.targets) + multiset(TargetsOf(WithoutDismissed(input.initialManualAttention, input.skipped)))
  {
    hide Select, WithoutDismissed;
    var manual := WithoutDismissed(input.initialManualAttention, input.skipped);
    if input.inventoryFailed {
      assert TargetsOf(UnloadedRecords(input.targets)) == input.targets;
    } else {
      TargetsConcat(manual, Select(text, input, input.targets, Manual));
      forall x: Target
        ensures Held(text, input, input.targets, Candidate, x) + Held(text, input, input.targets, Valid, x)
        + Held(text, input, input.targets, Unsure, x) + Held(text, input, input.targets, Manual, x)
        + Held(text, input, input.targets, ReportOnly, x) == multiset(input.targets)[x]
      {
        HeldOnce(text, input, input.targets, x);
      }
    }
  }
}
