/** `ThreadLifecycleAggregator` (src/analysis/thread-lifecycle.ts): which review threads may be
    resolved, from the providers' votes on them. */
module Lifecycle {
  import opened Options
  import opened Lists

  type Reason = string

  datatype Severity = Critical | Major | Minor | Unknown

  datatype Finding = Finding(file: string, text: string)

  datatype Target = Target(
    targetId: string,
    fingerprint: string,
    severity: Severity,
    hasHumanReply: bool,
    trustedAuthor: bool,
    reasonCodes: seq<Reason>,
    text: string)

  datatype Evidence = Evidence(path: Option<string>, reason: Option<string>)

  datatype Confidence = NotANumber | NotFinite | Value(value: real)

  datatype Revalidation = Revalidation(
    targetId: string,
    fingerprint: Option<string>,
    verdict: string,
    confidence: Confidence,
    evidence: seq<Evidence>,
    rationale: string)

  datatype Verdict = Resolved | StillValid | Uncertain

  datatype Vote = Vote(
    providerId: string,
    targetId: string,
    verdict: Verdict,
    valid: bool,
    reasonCodes: seq<Reason>,
    raw: Revalidation)

  datatype ProviderResult = ProviderResult(
    name: string,
    succeeded: bool,
    assignedTargetIds: Option<seq<string>>,
    revalidations: seq<Revalidation>,
    findings: seq<Finding>)

  datatype Assignment = Assignment(
    targetId: string,
    assignedProviderIds: seq<string>,
    failedProviderIds: seq<string>,
    inScope: bool)

  datatype Mode = Off | Report | Resolve

  datatype ThreadRecord = ThreadRecord(target: Target, reasonCodes: seq<Reason>, votes: seq<Vote>)

  /** Functions of other files: fingerprints, likeness of a finding and a thread, blank text. */
  datatype Text = Text(
    fingerprint: Finding -> string,
    matches: (Finding, Target) -> bool,
    blank: string -> bool,
    threshold: Severity -> real)

  datatype Input = Input(
    mode: Mode,
    targets: seq<Target>,
    plannedProviders: seq<string>,
    providerResults: seq<ProviderResult>,
    currentFindings: seq<Finding>,
    assignments: seq<Assignment>,
    initialManualAttention: seq<ThreadRecord>,
    skipped: seq<ThreadRecord>,
    warnings: seq<string>,
    inventoryFailed: bool)

  datatype Result = Result(
    resolvedCandidates: seq<ThreadRecord>,
    previousStillValid: seq<ThreadRecord>,
    previousUncertain: seq<ThreadRecord>,
    manualAttention: seq<ThreadRecord>,
    mutationSkipped: seq<ThreadRecord>,
    skipped: seq<ThreadRecord>,
    warnings: seq<string>)

  // ---- votes ----

  predicate Concrete(text: Text, evidence: seq<Evidence>) {
    exists i :: 0 <= i < |evidence| && evidence[i].path.Some? && !text.blank(evidence[i].path.value)
                && evidence[i].reason.Some? && !text.blank(evidence[i].reason.value)
  }

  /** Of targets with one id the last one counts. */
  function TargetById(targets: seq<Target>, id: string): Option<Target> {
    if targets == [] then None
    else
      var last := targets[|targets| - 1];
      if last.targetId == id then Some(last) else TargetById(targets[..|targets| - 1], id)
  }

  function ReadVerdict(verdict: string): Verdict {
    if verdict == "resolved" then Resolved else if verdict == "still_valid" then StillValid else Uncertain
  }

  /** Whether a `resolved` verdict has the confidence and the evidence it needs. */
  predicate ResolvedOk(text: Text, target: Target, raw: Revalidation) {
    var confidence := if raw.confidence.NotANumber? then Value(0.0) else raw.confidence;
    && confidence.Value? && 0.0 <= confidence.value <= 1.0 && confidence.value >= text.threshold(target.severity)
    && Concrete(text, raw.evidence)
  }

  /** `normalizeVote`; None when the target is not one of ours. */
  function NormalizeVote(text: Text, targets: seq<Target>, provider: string, raw: Revalidation): Option<Vote> {
    if raw.targetId == "" then Some(Vote(provider, "", Uncertain, false, ["missing_target_id"], raw))
    else
      var found := TargetById(targets, raw.targetId);
      if found.None? then None
      else
        var target, verdict := found.value, ReadVerdict(raw.verdict);
        var misnamed := raw.fingerprint.Some? && raw.fingerprint.value != ""
                        && raw.fingerprint.value != target.fingerprint;
        var unfounded :=
          || (verdict.Resolved? && !ResolvedOk(text, target, raw))
          || (verdict.StillValid? && text.blank(raw.rationale) && !Concrete(text, raw.evidence));
        var reasons := (if misnamed then ["unknown_target_id"] else [])
                       + (if unfounded then ["invalid_resolved_evidence"] else []);
        Some(Vote(provider, raw.targetId, verdict, reasons == [], reasons, raw))
  }

  function Rank(v: Vote): nat {
    if v.valid && v.verdict.StillValid? then 3
    else if !v.valid || v.verdict.Uncertain? then 2
    else 1
  }

  function SafestVote(left: Vote, right: Vote): Vote {
    if Rank(right) > Rank(left) then right else left
  }

  /** A vote joins those on its target: one per provider, the safest, in order of first appearance. */
  function PutVote(votes: seq<Vote>, v: Vote): seq<Vote> {
    if votes == [] then [v]
    else if votes[0].providerId == v.providerId then [SafestVote(votes[0], v)] + votes[1..]
    else [votes[0]] + PutVote(votes[1..], v)
  }

  function FoldVotes(votes: seq<Vote>, id: string): seq<Vote> {
    if votes == [] then []
    else
      var last := |votes| - 1;
      var before := FoldVotes(votes[..last], id);
      if votes[last].targetId == id then PutVote(before, votes[last]) else before
  }

  predicate Heard(input: Input, r: ProviderResult) {
    r.name in input.plannedProviders && r.succeeded
  }

  predicate Assigned(r: ProviderResult, id: string) {
    r.assignedTargetIds.None? || id in r.assignedTargetIds.value
  }

  function VotesOfResult(text: Text, input: Input, r: ProviderResult, raws: seq<Revalidation>): seq<Vote> {
    if raws == [] then []
    else
      var last := |raws| - 1;
      var before := VotesOfResult(text, input, r, raws[..last]);
      var vote := NormalizeVote(text, input.targets, r.name, raws[last]);
      if Assigned(r, raws[last].targetId) && vote.Some? then before + [vote.value] else before
  }

  function AllVotes(text: Text, input: Input, results: seq<ProviderResult>): seq<Vote> {
    if results == [] then []
    else
      var last := |results| - 1;
      var before := AllVotes(text, input, results[..last]);
      if Heard(input, results[last]) then
        before + VotesOfResult(text, input, results[last], results[last].revalidations)
      else before
  }

  function VotesOn(text: Text, input: Input, id: string): seq<Vote> {
    FoldVotes(AllVotes(text, input, input.providerResults), id)
  }

  // ---- classification ----

  datatype Bucket = Manual | Valid | Unsure | ReportOnly | Candidate

  function CountVotes(votes: seq<Vote>, verdict: Verdict): nat {
    if votes == [] then 0
    else (if votes[0].valid && votes[0].verdict == verdict then 1 else 0) + CountVotes(votes[1..], verdict)
  }

  function AssignmentOf(assignments: seq<Assignment>, id: string): Option<Assignment> {
    if assignments == [] then None
    else
      var last := assignments[|assignments| - 1];
      if last.targetId == id then Some(last) else AssignmentOf(assignments[..|assignments| - 1], id)
  }

  predicate CurrentFindingPresent(text: Text, input: Input, t: Target) {
    exists i :: 0 <= i < |input.currentFindings| &&
      (text.fingerprint(input.currentFindings[i]) == t.fingerprint || text.matches(input.currentFindings[i], t))
  }

  predicate ProviderFindingPresent(text: Text, input: Input, t: Target) {
    exists i :: 0 <= i < |input.providerResults| &&
      exists j :: 0 <= j < |input.providerResults[i].findings| && text.matches(input.providerResults[i].findings[j], t)
  }

  predicate OutOfScope(input: Input, t: Target) {
    var a := AssignmentOf(input.assignments, t.targetId);
    a.Some? && (!a.value.inScope || a.value.assignedProviderIds == [])
  }

  /** Two resolved votes, or the one of the only planned provider. */
  predicate Quorum(input: Input, votes: seq<Vote>) {
    var planned := Unique(input.plannedProviders);
    if |planned| >= 2 then CountVotes(votes, Resolved) >= 2
    else CountVotes(votes, Resolved) == 1 && |planned| == 1
  }

  function BucketOf(text: Text, input: Input, t: Target): Bucket {
    var votes := VotesOn(text, input, t.targetId);
    if t.hasHumanReply || !t.trustedAuthor then Manual
    else if CurrentFindingPresent(text, input, t) || ProviderFindingPresent(text, input, t) then Valid
    else if OutOfScope(input, t) then Unsure
    else if CountVotes(votes, StillValid) > 0 then Valid
    else if Quorum(input, votes) then (if input.mode.Report? then ReportOnly else Candidate)
    else Unsure
  }

  function Repeat(n: nat, r: Reason): seq<Reason> {
    seq(n, _ => r)
  }

  function CountMissing(planned: seq<string>, chosen: seq<string>): nat {
    if planned == [] then 0 else (if planned[0] in chosen then 0 else 1) + CountMissing(planned[1..], chosen)
  }

  predicate VotedBy(votes: seq<Vote>, provider: string) {
    exists i :: 0 <= i < |votes| && votes[i].providerId == provider
  }

  predicate FailedProvider(input: Input, a: Option<Assignment>, provider: string) {
    if a.Some? then provider in a.value.failedProviderIds
    else exists i :: 0 <= i < |input.providerResults| && !input.providerResults[i].succeeded
                     && input.providerResults[i].name == provider
  }

  /** Why the expected providers gave no vote. */
  function AbsenceReasons(input: Input, a: Option<Assignment>, expected: seq<string>, votes: seq<Vote>): seq<Reason> {
    if expected == [] then []
    else
      (if FailedProvider(input, a, expected[0]) then ["provider_failed"]
       else if !VotedBy(votes, expected[0]) then ["provider_missing_revalidation"]
       else [])
      + AbsenceReasons(input, a, expected[1..], votes)
  }

  function OnlyIn(planned: seq<string>, chosen: seq<string>): seq<string> {
    if planned == [] then []
    else (if planned[0] in chosen then [planned[0]] else []) + OnlyIn(planned[1..], chosen)
  }

  function InvalidReasons(votes: seq<Vote>): seq<Reason> {
    if votes == [] then [] else (if votes[0].valid then [] else votes[0].reasonCodes) + InvalidReasons(votes[1..])
  }

  function ReasonsOf(text: Text, input: Input, t: Target): seq<Reason> {
    var votes := VotesOn(text, input, t.targetId);
    var planned := Unique(input.plannedProviders);
    var a := AssignmentOf(input.assignments, t.targetId);
    var chosen := if a.Some? then a.value.assignedProviderIds else planned;
    var missing := Repeat(CountMissing(planned, chosen), "outside_review_scope");
    if t.hasHumanReply || !t.trustedAuthor then
      (if t.hasHumanReply then ["human_reply"] else []) + (if t.trustedAuthor then [] else ["untrusted_author"])
    else if CurrentFindingPresent(text, input, t) then ["current_finding_present"]
    else if ProviderFindingPresent(text, input, t) then ["provider_current_finding_present"]
    else if OutOfScope(input, t) then Unique(missing + ["outside_review_scope", "insufficient_resolved_quorum"])
    else if CountVotes(votes, StillValid) > 0 then ["still_valid_vote"]
    else if Quorum(input, votes) then (if input.mode.Report? then ["report_mode"] else [])
    else
      Unique(missing + AbsenceReasons(input, a, OnlyIn(planned, chosen), votes) + InvalidReasons(votes)
             + (if CountVotes(votes, Uncertain) > 0 then ["provider_uncertain"] else [])
             + ["insufficient_resolved_quorum"])
  }

  function RecordOf(text: Text, input: Input, t: Target): ThreadRecord {
    ThreadRecord(t, Unique(t.reasonCodes + ReasonsOf(text, input, t)), VotesOn(text, input, t.targetId))
  }

  /** The records of the targets that fall into a bucket, in order. */
  function Select(text: Text, input: Input, targets: seq<Target>, b: Bucket): seq<ThreadRecord> {
    if targets == [] then []
    else
      var last := |targets| - 1;
      var before := Select(text, input, targets[..last], b);
      if BucketOf(text, input, targets[last]) == b then before + [RecordOf(text, input, targets[last])] else before
  }

  function UnloadedRecords(targets: seq<Target>): seq<ThreadRecord> {
    seq(|targets|, i requires 0 <= i < |targets| =>
      ThreadRecord(targets[i], Unique(targets[i].reasonCodes + ["inventory_failed"]), []))
  }

  function WithoutDismissed(records: seq<ThreadRecord>, skipped: seq<ThreadRecord>): seq<ThreadRecord> {
    if records == [] then []
    else
      var dismissed := exists i :: 0 <= i < |skipped| && "command_dismissed" in skipped[i].reasonCodes
                                   && skipped[i].target.targetId == records[0].target.targetId;
      (if dismissed then [] else [records[0]]) + WithoutDismissed(records[1..], skipped)
  }

  function Aggregate(text: Text, input: Input): Result {
    var manual := WithoutDismissed(input.initialManualAttention, input.skipped);
    if input.inventoryFailed then
      Result([], [], UnloadedRecords(input.targets), manual, [], input.skipped,
             input.warnings + ["review thread lifecycle inventory failed"])
    else
      Result(Select(text, input, input.targets, Candidate),
             Select(text, input, input.targets, Valid),
             Select(text, input, input.targets, Unsure),
             manual + Select(text, input, input.targets, Manual),
             Select(text, input, input.targets, ReportOnly),
             input.skipped, input.warnings)
  }

  // ---- the loops ----

  function VotesAt(votes: map<string, seq<Vote>>, id: string): seq<Vote> {
    if id in votes then votes[id] else []
  }

  lemma FoldOneMore(done: seq<Vote>, v: Vote, id: string)
    ensures FoldVotes(done + [v], id)
         == if v.targetId == id then PutVote(FoldVotes(done, id), v) else FoldVotes(done, id)
  {
    assert (done + [v])[..|done|] == done;
  }

  /** `collectVotes`: the nested maps, filled vote by vote. */
  method CollectVotes(text: Text, input: Input) returns (votes: map<string, seq<Vote>>)
    ensures forall id :: VotesAt(votes, id) == VotesOn(text, input, id)
  {
    hide PutVote, NormalizeVote, Heard, Assigned;
    var results := input.providerResults;
    ghost var done: seq<Vote> := [];
    votes := map[];
    for i := 0 to |results|
      invariant done == AllVotes(text, input, results[..i])
      invariant forall id :: VotesAt(votes, id) == FoldVotes(done, id)
    {
      var r := results[i];
      assert results[..i + 1][..i] == results[..i];
      if Heard(input, r) {
        ghost var earlier := done;
        for j := 0 to |r.revalidations|
          invariant done == earlier + VotesOfResult(text, input, r, r.revalidations[..j])
          invariant forall id :: VotesAt(votes, id) == FoldVotes(done, id)
        {
          var raw := r.revalidations[j];
          assert r.revalidations[..j + 1][..j] == r.revalidations[..j];
          if Assigned(r, raw.targetId) {
            var vote := NormalizeVote(text, input.targets, r.name, raw);
            if vote.Some? {
              var v := vote.value;
              forall id ensures FoldVotes(done + [v], id)
                == if v.targetId == id then PutVote(FoldVotes(done, id), v) else FoldVotes(done, id)
              {
                FoldOneMore(done, v, id);
              }
              votes := votes[v.targetId := PutVote(VotesAt(votes, v.targetId), v)];
              done := done + [v];
            }
          }
        }
        assert r.revalidations[..|r.revalidations|] == r.revalidations;
      }
    }
    assert results[..|results|] == results;
  }

  /** `aggregate`: one record is pushed for each target. */
  method RunAggregate(text: Text, input: Input) returns (result: Result)
    ensures result == Aggregate(text, input)
  {
    hide RecordOf, BucketOf;
    var manual := WithoutDismissed(input.initialManualAttention, input.skipped);
    if input.inventoryFailed {
      return Result([], [], UnloadedRecords(input.targets), manual, [], input.skipped,
                    input.warnings + ["review thread lifecycle inventory failed"]);
    }
    var votes := CollectVotes(text, input);
    var targets := input.targets;
    var resolved, valid, unsure, reported := [], [], [], [];
    var fromTargets := [];
    for i := 0 to |targets|
      invariant resolved == Select(text, input, targets[..i], Candidate)
      invariant valid == Select(text, input, targets[..i], Valid)
      invariant unsure == Select(text, input, targets[..i], Unsure)
      invariant reported == Select(text, input, targets[..i], ReportOnly)
      invariant fromTargets == Select(text, input, targets[..i], Manual)
    {
      assert targets[..i + 1][..i] == targets[..i];
      var bucket, rec := Classify(text, input, targets[i], VotesAt(votes, targets[i].targetId));
      match bucket
      case Candidate => resolved := resolved + [rec];
      case Valid => valid := valid + [rec];
      case Unsure => unsure := unsure + [rec];
      case ReportOnly => reported := reported + [rec];
      case Manual => fromTargets := fromTargets + [rec];
    }
    assert targets[..|targets|] == targets;
    return Result(resolved, valid, unsure, manual + fromTargets, reported, input.skipped, input.warnings);
  }

  /** The body of the target loop: its exits in order, the first that applies. */
  method Classify(text: Text, input: Input, t: Target, votes: seq<Vote>) returns (bucket: Bucket, rec: ThreadRecord)
    requires votes == VotesOn(text, input, t.targetId)
    ensures bucket == BucketOf(text, input, t) && rec == RecordOf(text, input, t)
  {
    hide VotesOn, CurrentFindingPresent, ProviderFindingPresent, Quorum, Unique, AbsenceReasons, InvalidReasons;
    var reasons: seq<Reason>;
    var planned := Unique(input.plannedProviders);
    var a := AssignmentOf(input.assignments, t.targetId);
    var chosen := if a.Some? then a.value.assignedProviderIds else planned;
    var missing := Repeat(CountMissing(planned, chosen), "outside_review_scope");
    if t.hasHumanReply || !t.trustedAuthor {
      reasons := [];
      if t.hasHumanReply {
        reasons := reasons + ["human_reply"];
      }
      if !t.trustedAuthor {
        reasons := reasons + ["untrusted_author"];
      }
      assert reasons == ReasonsOf(text, input, t);
      bucket := Manual;
    } else if CurrentFindingPresent(text, input, t) {
      bucket, reasons := Valid, ["current_finding_present"];
    } else if ProviderFindingPresent(text, input, t) {
      bucket, reasons := Valid, ["provider_current_finding_present"];
    } else if a.Some? && (!a.value.inScope || chosen == []) {
      bucket, reasons := Unsure, Unique(missing + ["outside_review_scope", "insufficient_resolved_quorum"]);
    } else if CountVotes(votes, StillValid) > 0 {
      bucket, reasons := Valid, ["still_valid_vote"];
    } else if Quorum(input, votes) {
      if input.mode.Report? {
        bucket, reasons := ReportOnly, ["report_mode"];
      } else {
        bucket, reasons := Candidate, [];
      }
    } else {
      bucket := Unsure;
      reasons := missing + AbsenceReasons(input, a, OnlyIn(planned, chosen), votes) + InvalidReasons(votes);
      assert reasons + [] == reasons;
      if CountVotes(votes, Uncertain) > 0 {
        reasons := reasons + ["provider_uncertain"];
      }
      reasons := Unique(reasons + ["insufficient_resolved_quorum"]);
    }
    rec := ThreadRecord(t, Unique(t.reasonCodes + reasons), votes);
  }
}
