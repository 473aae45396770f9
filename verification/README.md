# ReviewRouter: a verified model of its stateful cores

ReviewRouter reviews pull requests with several model providers inside CI. Most of it is
orchestration of effects; this project models the parts in which one rule must survive every run, and
proves that rule for all inputs, runs or reachable states. `dafny verify dfyconfig.toml` checks it all.

| files | what they model |
|---|---|
| `Texts`, `Options`, `Lists`, `Decimal` | UTF-16 texts, their order and sorting by key; lists without repetition; decimal numerals |
| `Json`, `JsonLaws`, `CanonicalTheorems`, `PrinterLaws` | JavaScript values, the canonical printer, a parser after RFC 8259 sections 2 to 7, and `parseCanonicalState` |
| `Recorder`, `RecorderLaws`, `RecorderEntries`, `RecorderCrash`, `RecorderSafety`, `RecorderLateWrites`, `RecorderThrows`, `RecorderHeads`, `RecorderObject` | the authenticated event log: its chain, what an entry records, its two state files, crashes between any two renames, writes that fail, when `resume` throws, what the head hash determines; the recorder as a class |
| `Incremental`, `IncrementalLaws`, `IncrementalHistory` | the incremental review planner against a full review, over whole histories of saves |
| `Lifecycle`, `LifecycleLaws`, `LifecycleBuckets` | the quorum decision on review threads |
| `Inventory`, `InventoryLaws`, `InventoryOrder` | git's raw diff, exact rename pairing, the canonical order |
| `AuthRefresh`, `AuthRefreshLaws`, `AuthRefreshLines`, `AuthRefreshCuts`, `Utf8Laws` | the auth-refresh RPC reader over arbitrary chunks, with a streaming UTF-8 decoder after section 8.1.1 of the Encoding standard, proved against section 3 of RFC 3629 |
| `DiffLines`, `DiffLinesLaws` | looking up a line of a new file in a unified diff |
| `Progress`, `ProgressLaws`, `ProgressCounts` | the progress reporter, its terminal outcomes and its publish chain |
| `Migration`, `MigrationLaws`, `MigrationReplies`, `MigrationRaces` | the credential migration protocol with lost replies and killed runs, one run after another or many at a time |
| `Continuity`, `ContinuityLaws` | what a refreshed checkout may change in a run's configuration |
| `Dedup`, `DedupLaws`, `DedupPlacement`, `DedupVotes` | merging duplicate findings |
| `Csv` | the CSV export against a reader after section 2 of RFC 4180 |
| `PathMatching` | glob patterns, the match cache and the review intensity |
| `CodecWitness` | the hypotheses made of number printing and digests can be met |

Conventions. A function gives what an operation computes on values. Where the source changes fields,
arrays or local variables step by step, a class method or a method with loops does the same and its
`ensures` ties it to that function or to the property itself. Exceptions are results (`Throw`, `None` or
`false`). Hashes and MACs, `minimatch`, number printing, text similarity, clocks and replies of services
are parameters; what is assumed of them is a named predicate (`GoodCodec`, `GoodSetup`, `GoodRules`, ...).
No hash is assumed to be injective: a result that depends on it names the two texts that would collide.

Where the code does not do what its comments, names or tests suggest, the code is modelled, and the exact
condition under which it does is proved:

- An operation or result holding `undefined` makes `resume` reject the file, because the event text and
  the file text print `undefined` differently (`RecorderSafety.ExactRestore`, `RecorderLaws.HashSurvives`).
- A flush settles at its first failed write, and the other write goes on. If it lands over the file of a newer flush, an
  append that was acknowledged can be gone after the next resume, exactly when the late text holds less than callers
  know (`RecorderSafety.CrashSafety`, `RecorderLateWrites.LandingIff`, `RecorderLateWrites.LateWriteLoses`).
- A crash that leaves the replay material of a search renamed and its transcript not makes `resume` throw, unless two
  handles collide: that search has no entry yet (`RecorderThrows.ResumeThrowsIff`, `RecorderThrows.SearchCrashThrows`).
- Two accepted transcripts with one head hash have the same authenticated fields. The lists are identical
  exactly when the entries also agree on their other keys, which are not authenticated
  (`RecorderHeads.SameHeadSameChain`, `RecorderHeads.OneHeadTwoLists`).
- An incremental review equals a full one exactly when the planner picks every changed file and every listed
  namesake of a picked file, and an unchanged file it leaves out is listed exactly when it is covered. A rename record
  matched by two listed files, a listed file whose name another one bore before, or a listing whose base tree has moved
  can break that (`IncrementalLaws.PlanIsFaithfulIff`, `IncrementalLaws.AmbiguousRenameSkipsFile`,
  `IncrementalLaws.ReusedNameDropsFindings`, `IncrementalLaws.NewlyListedIsSkipped`).
- When bytes do not decode, the outcome depends on the chunks exactly when a whole exchange comes before them; when there
  are too many, exactly when the protocol does not wait any more at the bound; when there is both, always. The messages
  sent depend on them exactly when an accepted initialize reply comes before (`AuthRefreshCuts.CuttingMattersIff`).
- The diff lookup is right for a file exactly when its hunks begin under its name and add no line that begins with `++`,
  or are repeated elsewhere, and no line that other sections count under that name does harm. An added line that reads
  `++ b/name` renames a section. A section whose names git prints in quotes is not recognized: its lines are counted for
  the file before it, and are found there at numbers outside that file's hunks. In git's own diffs the label of a name
  with a space ends in a tab, so such a file is not found there; in a diff put together from file patches
  (src/github/pr-loader.ts:203-222) the label is the name (`DiffLinesLaws.LookupIsExact`,
  `DiffLinesLaws.QuotedSectionAnswers`, `DiffLinesLaws.AddedHeaderAnswers`,
  `DiffLinesLaws.SpacedNameIsMissedInGitDiffs`).
- After its outcome a review keeps showing it exactly when no plan, assembling or publishing is reported any more
  (`ProgressLaws.OutcomeStaysShownIff`).
- The migration's client does not keep overlapping runs from dispatching twice; all dispatches of a migration carry one
  idempotency key. A service that honours the key starts one write at most. One that does not starts one at most exactly
  when no dispatch is handled between another run's status read and its own dispatch (`MigrationRaces.KeyMakesOnePut`,
  `MigrationRaces.OnePutIff`).
- Continuity of configurations carries over exactly when the outer two also agree where the middle one has no
  settings (`ContinuityLaws.TransitiveIff`, `ContinuityLaws.NotTransitive`).
- An output of the deduplicator holds exactly the votes of its cluster, whatever findings of stable keys are merged into
  it as well, exactly when every vote key of the cluster reads back as itself; each merge reads the keys before it once
  more. A merged anchor line can move to the larger line (`DedupLaws.VotesSurviveIff`, `DedupLaws.KeysOfFold`,
  `DedupLaws.DoubleSuffixVoteChanges`, `DedupLaws.AnchorIsMinIff`).
- A last CSV row that is one empty field is lost (`Csv.ReadsBackIff`); the dashboard has none.

## Model

| member | source | states |
|---|---|---|
| JsonLaws.ParsePrint | src/context-gateway/context-gateway-contract.ts:186-212 | parsing the canonical text of any printable value gives the value with sorted keys and the rest, for every rest that does not continue a number: the printer and the RFC 8259 parser are inverse |
| CanonicalTheorems.CanonicalIffSame | src/context-gateway/context-gateway-contract.ts:186-212 | two values print alike exactly when they are equal up to key order, the sign of zero, and `undefined` against `{"$undefined":true}` |
| CanonicalTheorems.ReadBack | src/context-gateway/context-gateway-recorder.ts:337-348 | a state file written with the printer is accepted and read back as the value in normal form |
| CanonicalTheorems.AcceptsExactlyCanonical | src/context-gateway/context-gateway-recorder.ts:337-348 | a text is accepted as a state file if and only if it is the printer's own output for some value |
| PrinterLaws.LessIff | src/context-gateway/context-gateway-contract.ts:186-212 | code-unit order says what it should: the first unit in which two texts differ decides, and a front comes before its whole |
| PrinterLaws.KeysAscend | src/context-gateway/context-gateway-contract.ts:186-212 | keys are printed, and read back, in ascending order of code units |
| PrinterLaws.PrintedIsWellPaired | src/context-gateway/context-gateway-contract.ts:186-212 | whatever a string holds, no surrogate stands alone in what is printed for it |
| PrinterLaws.PrintedIsShortest | src/context-gateway/context-gateway-contract.ts:186-212 | of all JSON texts that read as a string without lone surrogates none is shorter than the one printed: nothing is escaped needlessly |
| PrinterLaws.LoneIsEscaped | src/context-gateway/context-gateway-contract.ts:186-212 | a surrogate that stands alone is printed as its escape, and what is beside it is printed as without it |
| RecorderLaws.WireAgainstPrint | src/control-plane/generated/review-action-v2/review-action-v2.ts:5879-5887 | the printer of authenticated events agrees with the file printer on values without `undefined`, and gives a shorter text on all others |
| RecorderLaws.HashSurvives | src/control-plane/generated/review-action-v2/review-action-v2.ts:5404-5413 | an entry read back has the event hash it was written with if its event holds no `undefined`; otherwise the two hashes are of different texts |
| RecorderLaws.ChainSurvives | src/context-gateway/context-gateway-recorder.ts:218-246 | a written chain is accepted when read back exactly when every event hash survives |
| RecorderCrash.AppendKeeps | src/context-gateway/context-gateway-recorder.ts:120-188 | `append` keeps the chain valid, bounded and flagged, and each replay entry justified, for every operation, result and query |
| RecorderEntries.AppendRecords | src/context-gateway/context-gateway-recorder.ts:120-188 | what an append records: one entry at the end with the caller's result; with a query its operation has the MAC of the query and the sha256 of the new replay entry's handle and is otherwise the caller's, without one it is the caller's; and exactly when the flag is set |
| RecorderEntries.AppendThrowsIff | src/context-gateway/context-gateway-recorder.ts:124-130 | an append throws when the chain is full, which sets the flag, or when the operation holds a number that does not print, which changes nothing; without a query exactly then |
| RecorderEntries.DigestNamesQuery | src/context-gateway/context-gateway-recorder.ts:144-151 | queries with one digest are the same, or the MACs of two texts collide |
| RecorderSafety.ResumeIsValid | src/context-gateway/context-gateway-recorder.ts:76-94 | whatever two files hold, a resume that does not throw gives a valid chain, failure flag and replay entries |
| RecorderSafety.ResumeFiles | src/context-gateway/context-gateway-recorder.ts:203-298 | what a resume makes of a transcript and a replay file of two different flushes, and exactly when it throws |
| RecorderThrows.ResumeIff | src/context-gateway/context-gateway-recorder.ts:76-94 | whatever two files hold: resume succeeds if and only if both are within bounds and canonical, one is a transcript of this session with a valid chain and the other replay material that belongs to it; and it restores what they hold |
| RecorderThrows.TranscriptFault | src/context-gateway/context-gateway-recorder.ts:203-258 | which of three errors refuses a transcript: what it is of comes first, then its chain, then its head and flag |
| RecorderThrows.EntriesFault | src/context-gateway/context-gateway-recorder.ts:260-298 | the first replay entry at fault says the error |
| RecorderSafety.RunKeeps | src/context-gateway/context-gateway-recorder.ts:190-197 | the invariant of every interleaving of calls, renames, failing writes and late ones, acknowledgments, crashes and resumes; what callers know is part of it as long as no late write lands over a newer file |
| RecorderSafety.ReachableIsValid | src/context-gateway/context-gateway-recorder.ts:124-188 | every reachable recorder is a valid chain of at most 2000 entries, flagged when a result is incomplete or truncated |
| RecorderSafety.CrashSafety | src/context-gateway/context-gateway-recorder.ts:300-323 | after a crash anywhere, between the two renames and after failed writes included, resume throws or restores a prefix of the history, with every acknowledged append, query and failure flag if no write of a failed flush landed over a newer file |
| RecorderLateWrites.LandingIff | src/context-gateway/context-gateway-recorder.ts:190-197 | when a write of a failed flush lands, what a resume restores has everything acknowledged if and only if the write holds at least what callers know of its file; a write newer than the file always does |
| RecorderLateWrites.LateWriteLoses | src/context-gateway/context-gateway-recorder.ts:319-322 | after any run, a call that fails on its replay material, an acknowledged one, and the first one's transcript landing after it: the files resume without the acknowledged entry |
| RecorderSafety.ExactRestore | src/context-gateway/context-gateway-recorder.ts:76-94 | with all acknowledged and within 2 MiB, resume restores the exact state if nothing recorded is `undefined`; if something is, it throws unless two event texts collide |
| RecorderSafety.FinishedCallIsKnown | src/context-gateway/context-gateway-recorder.ts:190-197 | a call whose two renames are done is acknowledged with the whole memory on disk |
| RecorderThrows.ResumeThrowsIff | src/context-gateway/context-gateway-recorder.ts:203-298 | stopped at any point of any run, resume succeeds if and only if both files are within bounds, every event hash in the transcript survives the file and every query has its entry in the transcript |
| RecorderThrows.SearchCrashThrows | src/context-gateway/context-gateway-recorder.ts:319-322 | stopped after a search's replay material is renamed and before its transcript is, resume throws, unless the handles of two entries collide |
| RecorderHeads.SameEventTexts | src/control-plane/generated/review-action-v2/review-action-v2.ts:5404-5413 | two events with one text have the same values, even when an operation is missing and its place holds the bare word `undefined` |
| RecorderHeads.HeadDeterminesChain | src/context-gateway/context-gateway-recorder.ts:219-254 | chains read from files with one head hash have the same authenticated fields entry by entry, or two texts collide, or a text hashes to the seed |
| RecorderHeads.SameHeadSameChain | src/context-gateway/context-gateway-recorder.ts:203-258 | the same for any two pairs of state files that resume; the restored lists are then equal if and only if the entries agree on their other keys, and always when they have none |
| RecorderHeads.OneHeadTwoLists | src/context-gateway/context-gateway-recorder.ts:203-258 | files of one flush and the same files with one more key in one entry both resume, with one head hash and different lists |
| RecorderObject.ContextGatewayRecorder.Append | src/context-gateway/context-gateway-recorder.ts:120-188 | the object's memory, result and files after a call: the entry stays in memory even when the flush throws |
| RecorderObject.ContextGatewayRecorder.RecordFailure | src/context-gateway/context-gateway-recorder.ts:113-118 | sets the flag, also when the flush after it throws |
| RecorderObject.ContextGatewayRecorder.Flush | src/context-gateway/context-gateway-recorder.ts:300-323 | the transcript is printed and its write started before the replay material is printed, so that a throw there leaves the new transcript |
| RecorderObject.FlushedIsWhole | src/context-gateway/context-gateway-recorder.ts:319-322 | with replay entries that print, as every recorder holds, a flush writes both files or none |
| RecorderObject.ContextGatewayRecorder.RestoreTranscript | src/context-gateway/context-gateway-recorder.ts:203-258 | pushing entry by entry restores what the specification restores, with its error; what a rejected file leaves in memory is a valid chain |
| RecorderObject.ContextGatewayRecorder.RestoreReplayMaterial | src/context-gateway/context-gateway-recorder.ts:260-298 | the first rejected entry decides the error; otherwise all entries are restored |
| RecorderObject.ContextGatewayRecorder.ResumeFromFiles | src/context-gateway/context-gateway-recorder.ts:76-94 | a used recorder refuses; a fresh one becomes what its two files specify |
| IncrementalLaws.ParseRendered | src/cache/incremental.ts:337-364 | the record loop reads back exactly the records git writes with `-z` |
| IncrementalLaws.HitIff | src/cache/incremental.ts:351-356 | a listed file is picked if and only if it, or the file it was renamed from, is a gap, or for some record it is the first listed file that bears its name or shares its former name |
| IncrementalLaws.DeltaIsFullReview | src/cache/incremental.ts:396-426 | a faithful delta, merged, has the findings of a full review of the new head, each as often, less those of the gaps |
| IncrementalLaws.UnfaithfulDeltaDiffers | src/cache/incremental.ts:396-426 | the condition is exact: for any other delta, whatever gaps it leaves, some per-path review makes the two differ |
| IncrementalLaws.PlanIsFaithfulIff | src/cache/incremental.ts:121-137 | with a correct diff the planner's delta meets that condition if and only if it picks every listed file whose content is new and every listed file that bears the former name of a picked one, and an unchanged path it leaves out is listed exactly when the saved review covers it |
| IncrementalLaws.SameListingCovers | src/cache/incremental.ts:121-137 | the third of these holds when an unchanged path is listed in both pull requests or in neither |
| IncrementalLaws.OneBaseSameListing | src/cache/incremental.ts:140-195 | which two listings against one base tree do |
| IncrementalLaws.NewlyListedIsSkipped | src/cache/incremental.ts:121-137 | with another base tree an unchanged file is newly listed, and the delta is not faithful |
| IncrementalLaws.SimpleListingIsHit | src/cache/incremental.ts:351-356 | both hold when one listed file at most answers to each record and no listed name is reused |
| IncrementalLaws.AmbiguousRenameSkipsFile | src/cache/incremental.ts:351-356 | a correct diff with two files answering to one record, for which the delta is not faithful |
| IncrementalLaws.ReusedNameDropsFindings | src/cache/incremental.ts:402-410 | a correct diff with a reused name, for which the delta is not faithful |
| IncrementalHistory.HistoryIsFullReview | src/cache/incremental.ts:245-274 | after every history of plans and saves, whatever coverage they reported, the stored findings are those of reviewing the paths really covered, which are all listed files but the named gaps when the snapshot is complete or names gaps |
| IncrementalHistory.ReuseIsFullReview | src/cache/incremental.ts:140-223 | a completed review is reused only at the same head and base with no gaps, and is then the full review |
| IncrementalHistory.NothingSlipsThrough | src/cache/incremental.ts:107-195 | over every history a listed file is planned, or the plan is full, or the stored review really covers its present content and holds exactly what reviewing it reports; saves that are incomplete without naming a gap included |
| Incremental.CollectChanges | src/cache/incremental.ts:334-373 | the loop over the diff's fields gives the files and invalidated paths that the parsed records determine |
| Incremental.MergeUncoveredFiles | src/cache/incremental.ts:469-489 | the files a saved review left uncovered are added once each |
| IncrementalHistory.SavedReviewIsUsed | src/cache/incremental.ts:140-274 | what a saved review means to the next plan: exactly when it is reused, when it is built upon and when the review is full, and that its findings, revision and gaps are what is used |
| IncrementalHistory.StoredReviewIsUsed | src/cache/incremental.ts:140-223 | the same for whatever is stored: reused if and only if it may be used and is complete at the same head, built upon if and only if it may be used and is not reused, and else the review is full |
| LifecycleLaws.CandidateIff | src/analysis/thread-lifecycle.ts:84-227 | a thread is a candidate for resolution if and only if: trusted author, no human reply, no matching finding, in scope, nobody holds it, and two planned providers (or the only one) cast nothing but valid resolutions |
| LifecycleBuckets.BucketIff | src/analysis/thread-lifecycle.ts:84-227 | each of the five buckets by its condition: a human reply or another author; reported again or, in scope, validly held; resolved by enough providers, to report or to resolve; and undecided if nobody says that the finding stands and too few that it does not |
| LifecycleBuckets.AggregateHolds | src/analysis/thread-lifecycle.ts:39-227 | a target is in a list of the result if and only if it meets that list's condition; the list for manual attention also holds what was set aside before |
| LifecycleBuckets.UnloadedHolds | src/analysis/thread-lifecycle.ts:39-82 | when the inventory did not load every target is uncertain and nothing is resolved, skipped or still valid |
| LifecycleBuckets.ListsInOrder | src/analysis/thread-lifecycle.ts:84-227 | each list holds its targets in the order of the input |
| LifecycleBuckets.UndecidedReasons | src/analysis/thread-lifecycle.ts:171-213 | exactly which reasons an undecided thread in scope is given, by votes, failed and missing providers |
| LifecycleBuckets.DecidedReasons | src/analysis/thread-lifecycle.ts:84-170 | the reasons of any other thread name the condition that decided it |
| LifecycleBuckets.VoteIff | src/analysis/thread-lifecycle.ts:277-344 | a resolution counts if and only if it is founded, a vote that the finding still holds if and only if it names the fingerprint or none and gives a rationale or concrete evidence |
| LifecycleBuckets.VoteReasons | src/analysis/thread-lifecycle.ts:277-344 | a vote is valid if and only if it has no reason against it, and which reasons it has |
| LifecycleBuckets.NoTargetNoVote | src/analysis/thread-lifecycle.ts:277-290 | without an id the vote is invalid; on an unknown target there is none |
| LifecycleBuckets.TargetByIdIsLast | src/analysis/thread-lifecycle.ts:232-275 | of the targets with one id the last is voted on |
| LifecycleLaws.ResolutionIsFounded | src/analysis/thread-lifecycle.ts:277-344 | a valid resolution names the target's fingerprint or none, is above its severity's threshold and brings concrete evidence |
| LifecycleLaws.FoldIsSafest | src/analysis/thread-lifecycle.ts:541-552 | folding keeps, for each provider and target, one cast vote, the safest |
| LifecycleLaws.ResolversCount | src/analysis/thread-lifecycle.ts:121-139 | the resolved votes that are counted are the distinct providers that only resolve |
| LifecycleLaws.ResultOrderIgnored | src/analysis/thread-lifecycle.ts:232-275 | another order of provider results changes no bucket |
| LifecycleLaws.RevalidationOrderIgnored | src/analysis/thread-lifecycle.ts:232-275 | another order of revalidations within a result changes no bucket |
| LifecycleLaws.MoreAgainstNeverAdds | src/analysis/thread-lifecycle.ts:164-213 | votes that are not valid resolutions, and findings, only take candidates away |
| LifecycleLaws.ExtraVoteNeverAdds | src/analysis/thread-lifecycle.ts:277-344 | one more revalidation anywhere that is no valid resolution adds no candidate |
| LifecycleLaws.ExtraFindingNeverAdds | src/analysis/thread-lifecycle.ts:512-529 | one more current finding adds no candidate |
| LifecycleLaws.ExtraProviderFindingNeverAdds | src/analysis/thread-lifecycle.ts:512-529 | one more finding of a provider adds no candidate |
| LifecycleLaws.ExtraResultNeverAdds | src/analysis/thread-lifecycle.ts:232-275 | one more provider result without a valid resolution adds no candidate |
| LifecycleLaws.EveryTargetOnce | src/analysis/thread-lifecycle.ts:39-227 | loaded or not, the result's buckets together hold each target exactly as often as the input lists it, beside the threads set aside before |
| Lifecycle.CollectVotes | src/analysis/thread-lifecycle.ts:232-275 | filling the nested maps vote by vote gives the folded votes of each target |
| Lifecycle.Classify | src/analysis/thread-lifecycle.ts:84-227 | the ordered exits give the bucket and the record of the specification |
| Lifecycle.RunAggregate | src/analysis/thread-lifecycle.ts:39-227 | the whole result, bucket by bucket |
| InventoryLaws.RawReadBack | src/context-gateway/canonical-git-inventory.ts:135-166 | reading git's raw diff gives back exactly the entries it was written from |
| InventoryLaws.RawAcceptedIff | src/context-gateway/canonical-git-inventory.ts:135-166 | bytes are read as entries if and only if they are what git writes for those entries |
| InventoryLaws.EveryEntryOnce | src/context-gateway/canonical-git-inventory.ts:194-247 | every raw entry is kept exactly once, as itself or as one side of one rename |
| InventoryLaws.PairsAreSound | src/context-gateway/canonical-git-inventory.ts:249-269 | a rename joins a delete and an add of one non-zero, non-submodule object |
| InventoryLaws.RenamesAreMaximal | src/context-gateway/canonical-git-inventory.ts:194-247 | exactly min(deletes, adds) renames per object |
| InventoryOrder.NoPairIsLeft | src/context-gateway/canonical-git-inventory.ts:194-247 | no delete and add of one blob that is there and is no submodule are both left over, and only such are paired |
| InventoryOrder.PairsKeepOrder | src/context-gateway/canonical-git-inventory.ts:230-242 | of two renames of one object the deletes stand in path order as the adds do |
| InventoryOrder.FirstArePaired | src/context-gateway/canonical-git-inventory.ts:230-269 | the candidates that come first by path are paired: one left over comes after every paired one of its status |
| InventoryOrder.InventoryHolds | src/context-gateway/canonical-git-inventory.ts:194-247 | the inventory lists the entries that are left and the renames, each as often, and nothing else |
| InventoryOrder.InventoryIsOrdered | src/context-gateway/canonical-git-inventory.ts:436-450 | and in ascending order of the paths after the change |
| InventoryLaws.InventoryIgnoresOrder | src/context-gateway/canonical-git-inventory.ts:436-450 | after the final sort every order of the input gives the same list |
| Inventory.SplitNulTerminated | src/context-gateway/canonical-git-inventory.ts:168-181 | the byte loop gives the tokens, or fails exactly when the last byte is not zero |
| Inventory.GroupRenameCandidates | src/context-gateway/canonical-git-inventory.ts:249-269 | the map holds each object's candidates, sorted by path |
| Inventory.PairExactRenames | src/context-gateway/canonical-git-inventory.ts:194-247 | the loops with their consumed set give the pairing of the specification |
| AuthRefreshLaws.ChunkingIgnored | src/codex-oauth/codex-bootstrap.ts:176-224 | for valid UTF-8 within 1 MiB, cutting the stream differently changes neither the outcome nor the messages sent |
| AuthRefreshLaws.SuccessIffExchange | src/codex-oauth/codex-bootstrap.ts:176-243 | success exactly when the complete lines read notifications, the id-1 result, notifications, the id-2 ChatGPT account; three messages are then sent in order |
| AuthRefreshCuts.OutcomeIff | src/codex-oauth/codex-bootstrap.ts:176-224 | a valid stream succeeds exactly on a whole exchange, ends as closed exactly if the protocol still waits and as invalid otherwise; and which messages it sends |
| AuthRefreshLines.PrintedLine | src/codex-oauth/codex-bootstrap.ts:176-224 | for any object on a line: it is skipped if and only if it is a notification, and is the first or second reply if and only if it is a response to that request, the second naming a ChatGPT account |
| Utf8Laws.EncodedIsDecoded | src/codex-oauth/codex-bootstrap.ts:150-184 | the UTF-8 form of any scalar values is decoded as their UTF-16 form, less a byte order mark at the start |
| Utf8Laws.DecodedIsEncoded | src/codex-oauth/codex-bootstrap.ts:150-184 | nothing else decodes: no overlong form, no surrogate and nothing beyond U+10FFFF |
| Utf8Laws.LengthIsBytes | src/context-gateway/context-gateway-recorder.ts:325-348 | the bound on a state file counts the bytes of the UTF-8 form of its text |
| AuthRefreshCuts.StopsSomewhere | src/codex-oauth/codex-bootstrap.ts:176-224 | every stream that is not taken as a whole has a first byte that is not: it does not decode, or is one too many |
| AuthRefreshCuts.CuttingMattersIff | src/codex-oauth/codex-bootstrap.ts:176-243 | for every such stream, exactly when every cutting settles alike: within the bound if and only if no whole exchange comes before that byte, beyond it if and only if all bytes up to the bound decode and leave the protocol waiting; and every cutting sends the same messages if and only if no accepted initialize reply comes before it |
| AuthRefreshLaws.BadTailDependsOnChunking | src/codex-oauth/codex-bootstrap.ts:176-224 | bytes that do not decode after a good exchange fail it in the same chunk and are ignored in the next |
| AuthRefresh.AuthRefreshReader.OnStdout | src/codex-oauth/codex-bootstrap.ts:176-224 | the handler's loop over the pending text gives the specified state, chunk by chunk |
| DiffLines.FindNewFileLineInDiff | src/analysis/finding-filter.ts:1077-1127 | the loop gives what the scan of the diff's lines gives |
| DiffLinesLaws.LookupIsCounted | src/analysis/finding-filter.ts:1077-1127 | on every diff rendered from sections and hunks, whatever names and labels they print, the scan finds the first line counted under the name in force |
| DiffLinesLaws.LookupIsNewFileLine | src/analysis/finding-filter.ts:1077-1127 | line n of the new file when n lies in one of its hunks and nothing otherwise, if its section begins under its name, no other section goes by that name and no added line of it begins with `++` |
| DiffLinesLaws.LookupIsExact | src/analysis/finding-filter.ts:1093-1111 | every line of a file is looked up rightly if and only if each hunk with a new side begins under the file's name and adds no line that begins with `++`, or is repeated all the same, and the lines that other sections count under the name do no harm; a hunk is repeated only if another section counts its last line under the name |
| DiffLinesLaws.AloneIsHarmless | src/analysis/finding-filter.ts:1093-1107 | nothing is counted elsewhere under a name that no other section goes by |
| DiffLinesLaws.QuotedIsUnread | src/analysis/finding-filter.ts:1086-1098 | a section with both names in quotes leaves the name in force as it was |
| DiffLinesLaws.QuotedSectionAnswers | src/analysis/finding-filter.ts:1086-1098 | a diff with such a section after a file's own one, in which line 1 of that file is found although it lies in none of its hunks |
| DiffLinesLaws.AddedHeaderAnswers | src/analysis/finding-filter.ts:1099-1103 | a concrete diff without a section of a file, in which line 1 of that file is found after an added line that reads like its header |
| DiffLinesLaws.SpacedNameIsMissedInGitDiffs | src/analysis/finding-filter.ts:1093-1107 | under git's own labels a file whose name holds a space is not found, unless an added line reads like its header or a section without a label that is read stands under its name |
| DiffLinesLaws.PlainNameIsAlone | src/analysis/finding-filter.ts:1093-1107 | under git's own labels a name without a space answers to no other section exactly when no added line reads like its header and no section without a label that is read stands under it |
| DiffLinesLaws.BareNamesRead | src/analysis/finding-filter.ts:1086-1098 | from a first line with bare names the new one is read, unless it holds ` b/` itself |
| DiffLinesLaws.GitTargetIs | src/analysis/finding-filter.ts:1086-1098 | a first line gives a name only if it has two bare ones, and then what follows the last place at which it can be split |
| DiffLinesLaws.DoublePlusIsSkipped | src/analysis/finding-filter.ts:1109-1111 | a concrete diff in which the line after such a line is found at its number |
| Progress.CiOrchestrationProgressReporter.Report | src/codex-oauth/ci-review-progress.ts:187-220 | the reporter's whole state after an event; an unknown slot throws |
| Progress.CiOrchestrationProgressReporter.Finish | src/codex-oauth/ci-review-progress.ts:222-242 | the reporter's whole state after an outcome is offered |
| Progress.CiOrchestrationProgressReporter.Advance | src/codex-oauth/ci-review-progress.ts:253-259 | the first link of the chain is published or, after a cancellation, left out |
| ProgressLaws.OutcomeMoves | src/codex-oauth/ci-review-progress.ts:222-242 | the outcome moves only from none to any, to cancelled, or from complete to failed through another publisher |
| ProgressLaws.OutcomeMovesForward | src/codex-oauth/ci-review-progress.ts:222-242 | over the rest of any run a failed, cancelled or superseded outcome never becomes complete, and a complete one changes only to failed or cancelled |
| ProgressLaws.PublishedInOrder | src/codex-oauth/ci-review-progress.ts:244-259 | over every run: one publication at a time, in queue order, without gaps unless cancelled, and no cancelled snapshot is left out |
| ProgressLaws.LastPublishedIsOutcome | src/codex-oauth/ci-review-progress.ts:222-259 | once the chain has drained, the last published snapshot carries the final outcome |
| ProgressLaws.CancelledIsAbsorbing | src/codex-oauth/ci-review-progress.ts:253-259 | after a cancellation the outcome stays, and nothing but cancelled snapshots is published |
| ProgressLaws.RunIsSpaced | src/codex-oauth/ci-review-progress.ts:244-251 | snapshots that are not forced are queued at least the interval after the one before |
| ProgressLaws.QueuedCountsAddUp | src/codex-oauth/ci-review-progress.ts:278-298 | in every queued snapshot completed + exhausted + retrying <= total and recovered <= completed |
| ProgressCounts.SnapshotCounts | src/codex-oauth/ci-review-progress.ts:187-298 | over every run, each queued snapshot counts, from the steps alone: how many required slots of the last plan had an acceptance as their last event, how many an exhaustion, and how many are running or accepted in a later attempt than the first |
| ProgressCounts.StepQueuesIff | src/codex-oauth/ci-review-progress.ts:222-276 | a step queues a snapshot if and only if it is an outcome that takes effect, a new plan, or comes the interval after the last one; and what the snapshot holds and where it goes |
| ProgressCounts.StepPhase | src/codex-oauth/ci-review-progress.ts:187-242 | the phase after any step, and that only an outcome that takes effect changes the outcome |
| ProgressLaws.OutcomeStaysShownIff | src/codex-oauth/ci-review-progress.ts:187-242 | once an outcome has taken effect the phase stays terminal through the rest of the run if and only if no plan, assembling or publishing is reported after it, and then every later snapshot shows it |
| ProgressLaws.LateEventIsQueuedIff | src/codex-oauth/ci-review-progress.ts:212-249 | a late phase event changes the phase in any case, and is queued at once if and only if it is a new plan or the interval has passed |
| ProgressLaws.LateEventHidesOutcome | src/codex-oauth/ci-review-progress.ts:212-219 | a phase event after any outcome is published with the outcome and the earlier phase |
| Migration.RunCodexRuntimeMigration | src/codex-oauth/runtime-migration.ts:195-249 | the sequence of requests with its two catches is the protocol of the specification: same result, same requests, for every script of replies |
| MigrationLaws.SuccessIsConfirmed | src/codex-oauth/runtime-migration.ts:401-449 | success only when the last request read a status whose confirmed attempt has another namespace, a larger epoch and another secret than the source |
| MigrationLaws.LastStatusDecides | src/codex-oauth/runtime-migration.ts:216-249 | after a dispatch its reply and the acknowledgment decide nothing; the last status does |
| MigrationReplies.SettledIff | src/codex-oauth/runtime-migration.ts:401-449 | a status settles the migration if and only if it is one of this claim past the prepared state, with a confirmed attempt for another namespace, a later epoch and another secret |
| MigrationReplies.MayDispatchIff | src/codex-oauth/runtime-migration.ts:201-215 | a run dispatches if and only if the status is the prepared one of its claim, without an attempt |
| MigrationReplies.PreparedIff | src/codex-oauth/runtime-migration.ts:183-193 | a claim is prepared if and only if the reply has a claim identifier and one of four states |
| MigrationReplies.ConfirmedIff | src/codex-oauth/runtime-migration.ts:216-249 | a dispatch is confirmed if and only if its reply says so with code 201 or 204 and an attempt that targets something new |
| MigrationReplies.AttemptFault | src/codex-oauth/runtime-migration.ts:401-449 | an attempt is refused as invalid, rather than malformed, if and only if its fields are well formed and it is of another claim, targets nothing new or is in no known state |
| MigrationReplies.FailureReasons | src/codex-oauth/runtime-migration.ts:195-249 | what each of the three status reads makes of a reply: the result, which error, or the dispatch |
| MigrationReplies.RequestsOfRun | src/codex-oauth/runtime-migration.ts:195-249 | the requests of a run, in one of five sequences: an acknowledgment only after a dispatch, and a status last |
| MigrationReplies.EpochReads | src/codex-oauth/runtime-migration.ts:401-449 | an epoch is compared as the number whose numeral it is |
| MigrationLaws.DispatchIsFenced | src/codex-oauth/runtime-migration.ts:201-223 | over any replies a run dispatches once at most, under the migration's idempotency key, right after reading a prepared claim without an attempt |
| MigrationLaws.AtMostOnePut | src/codex-oauth/runtime-migration.ts:195-249 | over any sequence of runs, with requests and replies lost and runs killed anywhere, at most one PUT is started |
| MigrationRaces.KeyMakesOnePut | src/codex-oauth/runtime-migration.ts:217-223 | over every interleaving of any number of runs of a migration, in whatever state they begin, a service that honours the idempotency key starts at most one PUT |
| MigrationRaces.OnePutIff | src/codex-oauth/runtime-migration.ts:195-249 | over every interleaving of any number of fresh runs, with losses and kills, at most one PUT is started if and only if the service honours the idempotency key, or no dispatch is handled between another run's status read and its own dispatch |
| MigrationLaws.OverlapStartsTwo | src/codex-oauth/runtime-migration.ts:201-223 | two runs can both be told to dispatch before either does; their two dispatches start one PUT on a service that honours their common key, and two on any other |
| Continuity.AssertContinuity | src/codex-oauth/account-gateway-runtime.ts:635-725 | the comparisons and the edited `normalized` record accept exactly the pairs that agree on all but availability and the settings an unavailable side lacks |
| ContinuityLaws.ReflexiveIff | src/codex-oauth/account-gateway-runtime.ts:645-653 | a configuration continues itself exactly when its plan is absent or parses |
| ContinuityLaws.Symmetric | src/codex-oauth/account-gateway-runtime.ts:635-725 | continuity is symmetric |
| ContinuityLaws.AgreedParts | src/codex-oauth/account-gateway-runtime.ts:695-724 | an accepted pair may differ only in the plan's text, when the plans agree, and in the model settings, when they agree or the side without them has an unavailable primary reviewer |
| ContinuityLaws.AgreeIff | src/codex-oauth/account-gateway-runtime.ts:635-725 | a refresh is accepted if and only if it has the same version and, without a plan on one side, the same entries, or else the same plan but for availability and settings an unavailable reviewer lacks, settings that agree in that sense, and every other entry alike |
| ContinuityLaws.TransitiveIff | src/codex-oauth/account-gateway-runtime.ts:661-712 | two configurations that agree with a third agree with each other if and only if they also do where the third has no settings |
| ContinuityLaws.NotTransitive | src/codex-oauth/account-gateway-runtime.ts:661-686 | with any plans in which one reviewer has settings, then none while unavailable, then others, continuity does not carry over |
| ContinuityLaws.EveryUseIsFirst | src/codex-oauth/account-gateway-runtime.ts:196-224 | in a run of any length a refresh is accepted exactly when it agrees with the first configuration, and the first is what is used |
| Continuity.CapabilityReader.ReadCapability | src/codex-oauth/account-gateway-runtime.ts:197-224 | the captured configuration is set once and compared with every later one |
| Dedup.Dedupe | src/analysis/deduplicator.ts:14-31 | the loop with replacement in place gives the outputs of the clusters |
| DedupLaws.EveryFindingOnce | src/analysis/deduplicator.ts:14-31 | every input finding is in exactly one output, once |
| DedupPlacement.PlacementIff | src/analysis/deduplicator.ts:14-31 | finding k opens an output if and only if it duplicates none of the outputs of those before it; otherwise it is merged into the earliest one that it duplicates, and the others stay |
| DedupPlacement.JoinsIff | src/analysis/deduplicator.ts:14-31 | and joins the cluster at that place |
| DedupPlacement.FoldGathers | src/analysis/deduplicator.ts:69-115 | an output has its first finding's file, provider and model, the largest line and confidence, a start or end line if one is known, the better title and message in turn, the first suggestion that is not empty, and each provider named, once |
| DedupLaws.OutputsKeep | src/analysis/deduplicator.ts:69-115 | an output lies in its cluster's file, has its largest severity and end line, exactly its sources, and exactly its vote keys if those read back as themselves |
| DedupLaws.OutputIsFold | src/analysis/deduplicator.ts:14-31 | every output is its first finding, with its vote keys stored, and the cluster's other findings merged into it in order |
| DedupLaws.VotesSurviveIff | src/analysis/deduplicator.ts:79-111 | for every cluster: with any further findings of stable keys merged into it, its output holds exactly the vote keys of all of them, if and only if every vote key of the cluster reads back as itself |
| DedupLaws.KeysOfFold | src/analysis/deduplicator.ts:79-111 | the vote keys of an output are those of its findings, each read once for every merge that follows its own |
| DedupLaws.OwnVotesIff | src/analysis/deduplicator.ts:79-111 | an output holds exactly its cluster's votes if and only if these readings are again all the keys of the cluster |
| DedupLaws.ReadBackIff | src/utils/provider-votes.ts:33-40 | stored vote keys are read back as the same set exactly when each reads back as itself |
| DedupVotes.VoteKeyIs | src/utils/provider-votes.ts:3-31 | the key a provider votes under: its name without blanks and instance suffix, or the model's behind OpenRouter's prefix; none exactly if nothing is left of the name |
| DedupVotes.VoteKeysIff | src/utils/provider-votes.ts:33-70 | exactly the keys a finding votes under: the stored ones that still read as keys; else those of its models and providers; else `static` |
| DedupLaws.DoubleSuffixVoteChanges | src/utils/provider-votes.ts:3-31 | `a#1#2` votes as `a#1`, and as `a` after a merge |
| DedupLaws.AnchorIsMinIff | src/analysis/deduplicator.ts:159-164 | the merged anchor is the smaller one exactly when a start line is known or both lie on one line |
| Csv.ReadsBackIff | src/analytics/dashboard-generator.ts:102-125 | for all field contents a reader after RFC 4180 returns the rows exactly when the last of several rows is not one empty field |
| Csv.QuotedIffNeeded | src/analytics/dashboard-generator.ts:102-125 | a field is put in quotes if and only if it would not read back without them |
| Csv.TablesReadBack | src/analytics/dashboard-generator.ts:77-107 | rows of two columns or more always read back |
| PathMatching.NoColon | src/analysis/path-matcher.ts:187-227 | an accepted pattern holds no colon |
| PathMatching.KeyInjective | src/analysis/path-matcher.ts:388-394 | a cache key belongs to one file and one pattern |
| PathMatching.ColonCollides | src/analysis/path-matcher.ts:390 | with a colon in a pattern two pairs share a key |
| PathMatching.PathMatcher.MatchesPattern | src/analysis/path-matcher.ts:388-419 | whatever was cached before, the answer is the matcher's, and only that answer is added |
| PathMatching.PathMatcher.DetermineIntensity | src/analysis/path-matcher.ts:285-456 | the highest intensity among the matching pairs, else the default, each matching path once, in the order in which they first come, and the text of the reason |
| PathMatching.IntensityIff | src/analysis/path-matcher.ts:285-350 | thorough if a matching pattern asks for it, else standard, else light if one asks for that, and else the default |
| PathMatching.DecisionIgnoresOrder | src/analysis/path-matcher.ts:285-350 | the order of files and patterns and earlier calls change neither the intensity nor which paths are listed |
| CodecWitness.GoodSetupExists | src/context-gateway/context-gateway-contract.ts:186-212 | the assumptions on number printing and digests hold of some setup |

## Left out

- HeadDeterminesChain: speaks of the authenticated fields of entries, because other keys are not authenticated.
- ExactRestore: the second half allows a hash collision, since no hash is assumed injective.
- CrashSafety: a rename is atomic and what was renamed is not lost; fsync, directories and file modes are not modelled. A write that fails does not reach the file, and what is still being written dies with the process.
- HistoryIsFullReview: assumes storage that returns what was written; src/cache/review-snapshot-bridge.ts drops the coverage fields (lines 140-150, 198-207).
- LookupIsExact: hunks of a file are taken to come in order and to show its content, as every diff's do; combined diffs are not rendered.
- KeyMakesOnePut: that the service honours the key is its own matter, src/codex-oauth/runtime-migration.ts only sends it.
- AtMostOnePut: runs follow one another and a request is handled before its loss is noticed; OnePutIff covers runs at the same time, and a request that arrives late is one that is handled later.
- OutputsKeep, FoldGathers: the votes are exact when all keys read back as themselves; VotesSurviveIff says that this is needed, and KeysOfFold what the votes are otherwise. AnchorIsMinIff says when a start line is the smaller one; which title and message is better and how model attributions are merged are parameters.
- KeysOfFold, OwnVotesIff: some key of the first finding is taken to remain a key; where all vanish, the names of the merged providers are asked again.
- Functions, symbols, bigints, array holes and objects with prototypes do not occur among the modelled values, so `context_gateway_canonical_value_invalid` does not either.
- Number printing and reading are a parameter that maps doubles to RFC 8259 number tokens and back.
- `hasExactKeys`, `changedPathsWitnessStatus`, cursor handles and `initialize` on existing files: one-branch facts.
- The checks of the recorder's constructor arguments, and the UTF-8 encoding of the state files beyond its length.
- `reconcileCarriedFindingsWithLifecycle`, the outcome counters and the links of lifecycle records.
- `materializeEntry`, object classification and the entry limit of the inventory; raw paths are modelled as code units, not bytes.
- Timeouts, aborts, stderr, process signals and stdin errors of the auth refresh.
- `filter` and `deduplicateFindings` of the finding filter and its text heuristics.
- The rendering of progress: the percentage is floating-point arithmetic whose rounding matters; comments and summaries are effects.
- The exchange reply's checks, OIDC, encryption and `readBoundedResponse` of the migration: the checked exchange is a parameter.
- Parsing reviewer plans: a parsed plan is a parameter that starts with its primary reviewer and prints. The printer used there is the context gateway's; src/review-investigation/domain/canonical-json.ts prints the same texts for parsed plans and settings, which hold no `undefined`.
- Similarity of findings, title scoring and `mergeProviderModels`: parameters.
- `toFixed`, dates and the HTML of the dashboard.
- `minimatch` itself, which is a parameter that may throw.
- Mutual exclusion of `CacheStorage` (src/cache/storage.ts:94-111): two waiters can both enter, so none is claimed.
- The identity of JavaScript objects: entries, findings and slots are values, told apart by their position where the source tells them apart by reference.
