/** Where each thread ends up, and why: every bucket of the result, every reason, and every valid resolution. */
module LifecycleBuckets {
  import opened Options
  import opened Lists
  import opened Lifecycle
  import opened LifecycleLaws

  // ---- the buckets ----

  /** Somebody else spoke, or the bot did not write the thread. */
  predicate NeedsHuman(t: Target) {
    t.hasHumanReply || !t.trustedAuthor
  }

  predicate FindingMatches(text: Text, input: Input, t: Target) {
    CurrentFindingPresent(text, input, t) || ProviderFindingPresent(text, input, t)
  }

  /** The finding is still there: reported again, or, in scope, held by a provider's valid vote. */
  ghost predicate Stands(text: Text, input: Input, t: Target) {
    && !NeedsHuman(t)
    && (FindingMatches(text, input, t) || (!OutOfScope(input, t) && StillHeld(text, input, t.targetId)))
  }

  /** Enough providers resolved it and nothing speaks against it. */
  ghost predicate Settled(text: Text, input: Input, t: Target) {
    && !NeedsHuman(t) && !FindingMatches(text, input, t) && !OutOfScope(input, t)
    && !StillHeld(text, input, t.targetId) && EnoughResolvers(text, input, t.targetId)
  }

  /** Nobody says that the finding stands, and too few say that it does not. */
  ghost predicate Undecided(text: Text, input: Input, t: Target) {
    && !NeedsHuman(t) && !FindingMatches(text, input, t)
    && (OutOfScope(input, t)
        || (!StillHeld(text, input, t.targetId) && !EnoughResolvers(text, input, t.targetId)))
  }

  lemma BucketIff(text: Text, input: Input, t: Target)
    ensures BucketOf(text, input, t) == Manual <==> NeedsHuman(t)
    ensures BucketOf(text, input, t) == Valid <==> Stands(text, input, t)
    ensures BucketOf(text, input, t) == Unsure <==> Undecided(text, input, t)
    ensures BucketOf(text, input, t) == ReportOnly <==> Settled(text, input, t) && input.mode.Report?
    ensures BucketOf(text, input, t) == Candidate <==> Settled(text, input, t) && !input.mode.Report?
  {
    hide VotesOn, Resolves, Cast, CurrentFindingPresent, ProviderFindingPresent, OutOfScope, StillHeld,
      EnoughResolvers, Quorum;
    QuorumIff(text, input, t.targetId);
    StillHeldCount(text, input, t.targetId);
  }

  predicate Holds(records: seq<ThreadRecord>, t: Target) {
    exists i :: 0 <= i < |records| && records[i].target == t
  }

  lemma HoldsConcat(a: seq<ThreadRecord>, b: seq<ThreadRecord>, t: Target)
    ensures Holds(a + b, t) <==> Holds(a, t) || Holds(b, t)
  {
    if i :| 0 <= i < |a| && a[i].target == t {
      assert (a + b)[i].target == t;
    }
    if i :| 0 <= i < |b| && b[i].target == t {
      assert (a + b)[|a| + i].target == t;
    }
  }

  lemma {:induction false} SelectHolds(text: Text, input: Input, targets: seq<Target>, b: Bucket, t: Target)
    ensures Holds(Select(text, input, targets, b), t) <==> t in targets && BucketOf(text, input, t) == b
  {
    hide BucketOf, Holds;
    if targets == [] {
      NothingHeld(text, input, b, t);
    } else {
      var last := |targets| - 1;
      SelectHolds(text, input, targets[..last], b, t);
      assert targets == targets[..last] + [targets[last]];
      HoldsConcat(Select(text, input, targets[..last], b), [RecordOf(text, input, targets[last])], t);
      OneHeld(RecordOf(text, input, targets[last]), t);
    }
  }

  lemma NothingHeld(text: Text, input: Input, b: Bucket, t: Target)
    ensures !Holds(Select(text, input, [], b), t)
  {
  }

  lemma OneHeld(record: ThreadRecord, t: Target)
    ensures Holds([record], t) <==> record.target == t
  {
    assert [record][0] == record;
  }

  /** When the inventory loaded, a target is in a list of the result exactly when it meets that list's condition; the
      list for manual attention also holds what was set aside before. */
  lemma AggregateHolds(text: Text, input: Input, t: Target)
    requires !input.inventoryFailed && t in input.targets
    ensures var r := Aggregate(text, input);
      && (Holds(r.previousStillValid, t) <==> Stands(text, input, t))
      && (Holds(r.previousUncertain, t) <==> Undecided(text, input, t))
      && (Holds(r.resolvedCandidates, t) <==> Settled(text, input, t) && !input.mode.Report?)
      && (Holds(r.mutationSkipped, t) <==> Settled(text, input, t) && input.mode.Report?)
      && (Holds(r.manualAttention, t) <==>
            NeedsHuman(t) || Holds(WithoutDismissed(input.initialManualAttention, input.skipped), t))
  {
    hide Select, BucketOf, Stands, Undecided, Settled, WithoutDismissed, Holds;
    BucketIff(text, input, t);
    SelectHolds(text, input, input.targets, Valid, t);
    SelectHolds(text, input, input.targets, Unsure, t);
    SelectHolds(text, input, input.targets, Candidate, t);
    SelectHolds(text, input, input.targets, ReportOnly, t);
    SelectHolds(text, input, input.targets, Manual, t);
    HoldsConcat(WithoutDismissed(input.initialManualAttention, input.skipped),
                Select(text, input, input.targets, Manual), t);
  }

  /** The targets of a bucket. */
  function InBucket(text: Text, input: Input, targets: seq<Target>, b: Bucket): seq<Target> {
    if targets == [] then []
    else (if BucketOf(text, input, targets[0]) == b then [targets[0]] else []) + InBucket(text, input, targets[1..], b)
  }

  lemma {:induction false} InBucketMore(text: Text, input: Input, front: seq<Target>, t: Target, b: Bucket)
    ensures InBucket(text, input, front + [t], b)
         == InBucket(text, input, front, b) + (if BucketOf(text, input, t) == b then [t] else [])
  {
    hide BucketOf;
    if front == [] {
      assert front + [t] == [t];
    } else {
      InBucketMore(text, input, front[1..], t, b);
      assert (front + [t])[1..] == front[1..] + [t];
    }
  }

  /** A list of the result holds its targets in the order of the input. */
  lemma {:induction false} ListsInOrder(text: Text, input: Input, targets: seq<Target>, b: Bucket)
    ensures TargetsOf(Select(text, input, targets, b)) == InBucket(text, input, targets, b)
  {
    hide BucketOf;
    if targets != [] {
      var last := |targets| - 1;
      ListsInOrder(text, input, targets[..last], b);
      InBucketMore(text, input, targets[..last], targets[last], b);
      assert targets == targets[..last] + [targets[last]];
      TargetsConcat(Select(text, input, targets[..last], b), [RecordOf(text, input, targets[last])]);
      assert TargetsOf([RecordOf(text, input, targets[last])]) == [targets[last]];
    }
  }

  /** When it did not load, every target is uncertain and no list but that for manual attention holds anything. */
  lemma UnloadedHolds(text: Text, input: Input, t: Target)
    requires input.inventoryFailed
    ensures var r := Aggregate(text, input);
      && (Holds(r.previousUncertain, t) <==> t in input.targets)
      && r.previousStillValid == r.resolvedCandidates == r.mutationSkipped == []
  {
    var records := UnloadedRecords(input.targets);
    if t in input.targets {
      var i :| 0 <= i < |input.targets| && input.targets[i] == t;
      assert records[i].target == t;
    }
  }

  // ---- the reasons ----

  lemma InvalidReasonsOf(votes: seq<Vote>, x: Reason)
    ensures x in InvalidReasons(votes) <==> exists v :: v in votes && !v.valid && x in v.reasonCodes
  {
    if votes != [] {
      InvalidReasonsOf(votes[1..], x);
      assert votes == [votes[0]] + votes[1..];
    }
  }

  lemma AbsenceReasonsOf(input: Input, a: Option<Assignment>, expected: seq<string>, votes: seq<Vote>, x: Reason)
    ensures x in AbsenceReasons(input, a, expected, votes) <==>
      || (x == "provider_failed" && exists p :: p in expected && FailedProvider(input, a, p))
      || (x == "provider_missing_revalidation"
          && exists p :: p in expected && !FailedProvider(input, a, p) && !VotedBy(votes, p))
  {
    hide FailedProvider, VotedBy;
    if expected != [] {
      AbsenceReasonsOf(input, a, expected[1..], votes, x);
      assert expected == [expected[0]] + expected[1..];
    }
  }

  lemma OnlyInMembers(planned: seq<string>, chosen: seq<string>)
    ensures forall p :: p in OnlyIn(planned, chosen) <==> p in planned && p in chosen
    ensures CountMissing(planned, chosen) > 0 <==> exists p :: p in planned && p !in chosen
  {
    if planned != [] {
      OnlyInMembers(planned[1..], chosen);
      assert planned == [planned[0]] + planned[1..];
    }
  }

  lemma CountedVerdict(votes: seq<Vote>, verdict: Verdict)
    ensures CountVotes(votes, verdict) > 0 <==> exists v :: v in votes && v.valid && v.verdict == verdict
  {
    if votes != [] {
      CountedVerdict(votes[1..], verdict);
      assert votes == [votes[0]] + votes[1..];
    }
  }

  /** The providers that a target's assignment names, or all planned ones. */
  function Chosen(input: Input, t: Target): seq<string> {
    var a := AssignmentOf(input.assignments, t.targetId);
    if a.Some? then a.value.assignedProviderIds else input.plannedProviders
  }

  /** A planned provider whose vote on the target was due. */
  predicate Expected(input: Input, t: Target, p: string) {
    p in input.plannedProviders && p in Chosen(input, t)
  }

  predicate Failed(input: Input, t: Target, p: string) {
    FailedProvider(input, AssignmentOf(input.assignments, t.targetId), p)
  }

  /** The provider cast a vote on the target. */
  ghost predicate Voted(text: Text, input: Input, t: Target, p: string) {
    exists v :: CastOn(text, input, t.targetId, p, v)
  }

  lemma VotedIff(text: Text, input: Input, t: Target, p: string)
    ensures VotedBy(VotesOn(text, input, t.targetId), p) <==> Voted(text, input, t, p)
  {
    hide VotesOn, Cast;
    var kept := VotesOn(text, input, t.targetId);
    VotesOnAreCast(text, input, t.targetId);
    if VotedBy(kept, p) {
      var i :| 0 <= i < |kept| && kept[i].providerId == p;
      assert kept[i] in kept && CastOn(text, input, t.targetId, p, kept[i]);
    }
  }

  lemma UndecidedReasons(text: Text, input: Input, t: Target, x: Reason)
    requires Undecided(text, input, t) && !OutOfScope(input, t)
    ensures var votes := VotesOn(text, input, t.targetId);
      x in ReasonsOf(text, input, t) <==>
        || x == "insufficient_resolved_quorum"
        || (x == "outside_review_scope" && exists p :: p in input.plannedProviders && p !in Chosen(input, t))
        || (x == "provider_failed" && exists p :: Expected(input, t, p) && Failed(input, t, p))
        || (x == "provider_missing_revalidation"
            && exists p :: Expected(input, t, p) && !Failed(input, t, p) && !Voted(text, input, t, p))
        || (x == "provider_uncertain" && exists v :: v in votes && v.valid && v.verdict.Uncertain?)
        || (exists v :: v in votes && !v.valid && x in v.reasonCodes)
  {
    hide VotesOn, Resolves, Cast, CurrentFindingPresent, ProviderFindingPresent, OutOfScope, StillHeld,
      EnoughResolvers, Quorum, FailedProvider, VotedBy, InvalidReasons, AbsenceReasons, CountMissing, OnlyIn, Voted;
    var votes := VotesOn(text, input, t.targetId);
    var planned := Unique(input.plannedProviders);
    var a := AssignmentOf(input.assignments, t.targetId);
    var chosen := if a.Some? then a.value.assignedProviderIds else planned;
    QuorumIff(text, input, t.targetId);
    StillHeldCount(text, input, t.targetId);
    InvalidReasonsOf(votes, x);
    AbsenceReasonsOf(input, a, OnlyIn(planned, chosen), votes, x);
    OnlyInMembers(planned, chosen);
    CountedVerdict(votes, Uncertain);
    forall p ensures VotedBy(votes, p) <==> Voted(text, input, t, p) {
      VotedIff(text, input, t, p);
    }
    RepeatMembers(CountMissing(planned, chosen), "outside_review_scope");
    forall p ensures p in OnlyIn(planned, chosen) <==> Expected(input, t, p) {
    }
  }

  lemma RepeatMembers(n: nat, r: Reason)
    ensures forall x :: x in Repeat(n, r) <==> n > 0 && x == r
  {
    if n > 0 {
      assert Repeat(n, r)[0] == r;
    }
  }

  /** The reasons of a decided thread say which condition decided it. */
  lemma DecidedReasons(text: Text, input: Input, t: Target, x: Reason)
    requires !Undecided(text, input, t) || OutOfScope(input, t)
    ensures x in ReasonsOf(text, input, t) <==>
      if NeedsHuman(t) then
        (x == "human_reply" && t.hasHumanReply) || (x == "untrusted_author" && !t.trustedAuthor)
      else if CurrentFindingPresent(text, input, t) then x == "current_finding_present"
      else if ProviderFindingPresent(text, input, t) then x == "provider_current_finding_present"
      else if OutOfScope(input, t) then x == "outside_review_scope" || x == "insufficient_resolved_quorum"
      else if StillHeld(text, input, t.targetId) then x == "still_valid_vote"
      else x == "report_mode" && input.mode.Report?
  {
    hide VotesOn, Resolves, Cast, CurrentFindingPresent, ProviderFindingPresent, OutOfScope, StillHeld,
      EnoughResolvers, Quorum, CountMissing;
    var planned := Unique(input.plannedProviders);
    var a := AssignmentOf(input.assignments, t.targetId);
    QuorumIff(text, input, t.targetId);
    StillHeldCount(text, input, t.targetId);
    RepeatMembers(CountMissing(planned, if a.Some? then a.value.assignedProviderIds else planned),
                  "outside_review_scope");
  }

  // ---- votes ----

  /** What a `resolved` verdict needs to count. */
  predicate Founded(text: Text, t: Target, raw: Revalidation) {
    && (raw.fingerprint.None? || raw.fingerprint.value == "" || raw.fingerprint.value == t.fingerprint)
    && Concrete(text, raw.evidence)
    && (if raw.confidence.Value?
        then 0.0 <= raw.confidence.value <= 1.0 && text.threshold(t.severity) <= raw.confidence.value
        else raw.confidence.NotANumber? && text.threshold(t.severity) <= 0.0)
  }

  /** A resolution counts exactly when it is founded; a vote that the finding still holds, exactly when it names the
      target's fingerprint or none and gives a rationale or concrete evidence; and any other verdict is uncertain. */
  lemma VoteIff(text: Text, input: Input, provider: string, raw: Revalidation)
    requires raw.targetId != "" && TargetById(input.targets, raw.targetId).Some?
    ensures var t := TargetById(input.targets, raw.targetId).value;
      var vote := NormalizeVote(text, input.targets, provider, raw);
      && vote.Some? && vote.value.providerId == provider && vote.value.targetId == raw.targetId && vote.value.raw == raw
      && (vote.value.verdict.Resolved? <==> raw.verdict == "resolved")
      && (vote.value.verdict.StillValid? <==> raw.verdict == "still_valid")
      && (raw.verdict == "resolved" ==> (vote.value.valid <==> Founded(text, t, raw)))
      && (raw.verdict != "resolved" ==>
            (vote.value.valid <==>
              && (raw.fingerprint.None? || raw.fingerprint.value == "" || raw.fingerprint.value == t.fingerprint)
              && (raw.verdict == "still_valid" ==> !text.blank(raw.rationale) || Concrete(text, raw.evidence))))
  {
    hide Concrete, TargetById;
  }

  /** An invalid vote says what is wrong with it: the fingerprint, or what it rests on. */
  lemma VoteReasons(text: Text, input: Input, provider: string, raw: Revalidation, x: Reason)
    requires raw.targetId != "" && TargetById(input.targets, raw.targetId).Some?
    ensures var t := TargetById(input.targets, raw.targetId).value;
      var vote := NormalizeVote(text, input.targets, provider, raw).value;
      var misnamed := raw.fingerprint.Some? && raw.fingerprint.value != "" && raw.fingerprint.value != t.fingerprint;
      && (vote.valid <==> vote.reasonCodes == [])
      && (x in vote.reasonCodes <==>
            || (x == "unknown_target_id" && misnamed)
            || (x == "invalid_resolved_evidence"
                && (|| (raw.verdict == "resolved" && !Founded(text, t, raw.(fingerprint := None)))
                    || (raw.verdict == "still_valid" && text.blank(raw.rationale) && !Concrete(text, raw.evidence)))))
  {
    hide Concrete, TargetById;
  }

  /** A revalidation without an id gives an invalid vote, and one of an unknown target gives none. */
  lemma NoTargetNoVote(text: Text, input: Input, provider: string, raw: Revalidation)
    requires raw.targetId == "" || TargetById(input.targets, raw.targetId).None?
    ensures var vote := NormalizeVote(text, input.targets, provider, raw);
      if raw.targetId == "" then vote.Some? && !vote.value.valid else vote.None?
  {
  }

  /** Of the targets with one id the last one is voted on. */
  lemma TargetByIdIsLast(targets: seq<Target>, id: string)
    ensures var found := TargetById(targets, id);
      if found.None? then forall t | t in targets :: t.targetId != id
      else exists i :: 0 <= i < |targets| && targets[i] == found.value && targets[i].targetId == id
             && forall j :: i < j < |targets| ==> targets[j].targetId != id
  {
    if targets != [] {
      var last := |targets| - 1;
      TargetByIdIsLast(targets[..last], id);
      assert targets == targets[..last] + [targets[last]];
      if targets[last].targetId != id && TargetById(targets[..last], id).Some? {
        var i :| 0 <= i < last && targets[..last][i] == TargetById(targets, id).value
          && targets[..last][i].targetId == id
          && forall j :: i < j < last ==> targets[..last][j].targetId != id;
        assert targets[i] == TargetById(targets, id).value;
      }
    }
  }
}
