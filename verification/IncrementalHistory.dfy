/** Every history of plan, review and save steps. */
module IncrementalHistory {
  import opened Options
  import opened Incremental
  import opened IncrementalLaws

  /** What the plans are about: the tree of a commit, the files a pull request lists between a base
      and a head, and what reviewing a path at a base reports. */
  datatype Repository = Repository(
    tree: string -> Tree,
    listing: (string, string) -> seq<FileChange>,
    review: string -> Review)

  /** One run: the revision, the clock, git's output if it ran, the planned paths no review came back for, the
      coverage it then reports, and whether the snapshot was advanced. */
  datatype RunInput = RunInput(
    pr: PullRequest,
    now: int,
    output: Option<string>,
    missed: seq<string>,
    coverage: Option<Coverage>,
    saves: bool)

  function RunGaps(run: RunInput): seq<string> {
    if run.coverage.Some? then run.coverage.value.unreviewedPaths else []
  }

  predicate RunComplete(run: RunInput) {
    run.coverage.None? || run.coverage.value.complete
  }

  function PlanOf(config: Config, stored: Option<Snapshot>, run: RunInput): Plan {
    PlanReview(config, stored, run.pr, run.now, run.output)
  }

  /** The findings a run ends with. */
  function RunFindings(config: Config, repo: Repository, stored: Option<Snapshot>, run: RunInput): seq<Finding> {
    var review, head := repo.review(run.pr.baseSha), repo.tree(run.pr.headSha);
    match PlanOf(config, stored, run)
    case Full(files) => FindingsOf(review, head, Without(files, run.missed))
    case Delta(files, invalidated, last) =>
      DeltaFindings(review, head, last.findings, files, invalidated, run.missed)
    case ReuseCompleted(last) => last.findings
  }

  predicate Advances(config: Config, stored: Option<Snapshot>, run: RunInput) {
    run.saves && !PlanOf(config, stored, run).ReuseCompleted?
  }

  /** The snapshot after a run; reusing a completed review does not advance it. */
  function RunOnce(config: Config, repo: Repository, stored: Option<Snapshot>, run: RunInput): Option<Snapshot> {
    if !Advances(config, stored, run) then stored
    else Some(SavedSnapshot(config, run.pr, RunFindings(config, repo, stored, run), run.coverage, run.now))
  }

  /** The paths the stored findings really speak of: reviewed by the run that saved them, or kept by its delta
      from those before. */
  function CoveredOnce(config: Config, stored: Option<Snapshot>, covered: set<string>, run: RunInput): set<string> {
    if !Advances(config, stored, run) then covered
    else match PlanOf(config, stored, run)
      case Full(files) => Names(files) - NameSet(run.missed)
      case Delta(files, invalidated, _) =>
        (covered - DroppedPaths(files, invalidated)) + (Names(files) - NameSet(run.missed))
      case ReuseCompleted(_) => covered
  }

  function After(config: Config, repo: Repository, runs: seq<RunInput>): Option<Snapshot> {
    if runs == [] then None
    else
      var last := |runs| - 1;
      RunOnce(config, repo, After(config, repo, runs[..last]), runs[last])
  }

  function Covered(config: Config, repo: Repository, runs: seq<RunInput>): set<string> {
    if runs == [] then {}
    else
      var last := |runs| - 1;
      CoveredOnce(config, After(config, repo, runs[..last]), Covered(config, repo, runs[..last]), runs[last])
  }

  ghost predicate ListedOk(repo: Repository, pr: PullRequest) {
    pr.files == repo.listing(pr.baseSha, pr.headSha) && DistinctNames(pr.files)
  }

  /** The records are right about the two commits, with them the planner picks what it has to, and what it leaves out
      is listed exactly when it is covered. */
  ghost predicate RecordsOk(records: seq<DiffRecord>, old_: Tree, head: Tree, before: seq<FileChange>,
                            listed: seq<FileChange>, gaps: seq<string>) {
    && CorrectDiff(records, old_, head)
    && ChangedAreHit(old_, head, listed, records, gaps) && NamesakesAreHit(head, listed, records, gaps)
    && UnpickedAreCovered(old_, head, before, listed, records, gaps)
  }

  /** Git's output, when there is one, is right about the two commits, and fits the listing. */
  ghost predicate DiffOk(repo: Repository, last: Snapshot, pr: PullRequest, output: Option<string>) {
    var old_, head := repo.tree(last.lastReviewedCommit), repo.tree(pr.headSha);
    var before := repo.listing(pr.baseSha, last.lastReviewedCommit);
    output.Some? ==>
      exists records: seq<DiffRecord> ::
        output.value == RenderRecords(records) && RecordsOk(records, old_, head, before, pr.files, Gaps(last))
  }

  function PlannedFiles(plan: Plan): seq<FileChange> {
    if plan.ReuseCompleted? then [] else plan.files
  }

  /** A run that reports completeness missed nothing, and the paths it names, if any, are those it missed. A run
      that is incomplete and names no path may have missed any. */
  ghost predicate CoverageOk(config: Config, stored: Option<Snapshot>, run: RunInput) {
    && NameSet(run.missed) <= Names(PlannedFiles(PlanOf(config, stored, run)))
    && (RunComplete(run) ==> run.missed == [] && RunGaps(run) == [])
    && (RunGaps(run) != [] ==> NameSet(RunGaps(run)) == NameSet(run.missed))
  }

  ghost predicate RunOk(config: Config, repo: Repository, stored: Option<Snapshot>, run: RunInput) {
    && ListedOk(repo, run.pr)
    && (stored.Some? ==> DiffOk(repo, stored.value, run.pr, run.output))
    && (run.saves ==> CoverageOk(config, stored, run))
  }

  ghost predicate HistoryOk(config: Config, repo: Repository, runs: seq<RunInput>) {
    && (forall base :: OnPath(repo.review(base)))
    && forall i :: 0 <= i < |runs| ==> RunOk(config, repo, After(config, repo, runs[..i]), runs[i])
  }

  // ---- the invariant ----

  /** The snapshot knows what it covers: it is complete, or names its gaps. */
  predicate NamesItsGaps(s: Snapshot) {
    CoverageComplete(s) || Gaps(s) != []
  }

  /** The paths of the revision that are covered are the listed ones, less the named gaps. */
  ghost predicate CoversListed(tree: Tree, covered: set<string>, listed: seq<FileChange>, gaps: seq<string>) {
    forall p :: p in tree ==> (p in covered <==> p in Names(listed) && p !in gaps)
  }

  /** The findings are those of reviewing the covered paths at the saved revision; and a snapshot that is complete
      or names its gaps covers all the others. */
  ghost predicate SnapshotOk(repo: Repository, s: Snapshot, covered: set<string>) {
    && s.baseSha.Some?
    && var base, tree := s.baseSha.value, repo.tree(s.lastReviewedCommit);
       var listed := repo.listing(base, s.lastReviewedCommit);
       && DistinctNames(listed)
       && ReviewOf(repo.review(base), tree, covered, s.findings)
       && (CoverageComplete(s) ==> Gaps(s) == [])
       && (NamesItsGaps(s) ==> NameSet(Gaps(s)) <= Names(listed) && CoversListed(tree, covered, listed, Gaps(s)))
  }

  ghost predicate StoredOk(repo: Repository, stored: Option<Snapshot>, covered: set<string>) {
    stored.Some? ==> SnapshotOk(repo, stored.value, covered)
  }

  lemma FullRunFindings(review: Review, tree: Tree, listed: seq<FileChange>, missed: seq<string>)
    requires OnPath(review) && DistinctNames(listed)
    ensures ReviewOf(review, tree, Names(listed) - NameSet(missed), FindingsOf(review, tree, Without(listed, missed)))
  {
    hide FindingsOf, Without, OnPath;
    WithoutNames(listed, missed);
    forall x: Finding ensures multiset(FindingsOf(review, tree, Without(listed, missed)))[x]
      == if x.file in Names(listed) - NameSet(missed) then multiset(Reported(review, tree, x.file))[x] else 0
    {
      CountFindings(review, tree, Without(listed, missed), x);
    }
  }

  /** Only the paths of the tree matter. */
  lemma SameCovered(review: Review, tree: Tree, a: set<string>, b: set<string>, findings: seq<Finding>)
    requires ReviewOf(review, tree, a, findings) && forall p :: p in tree ==> (p in a <==> p in b)
    ensures ReviewOf(review, tree, b, findings)
  {
  }

  /** What a delta plan consists of; the planner makes none from a snapshot that cannot name its gaps. */
  lemma DeltaPlan(config: Config, repo: Repository, stored: Option<Snapshot>, run: RunInput)
      returns (records: seq<DiffRecord>)
    requires RunOk(config, repo, stored, run) && PlanOf(config, stored, run).Delta?
    ensures var plan := PlanOf(config, stored, run); var last := plan.last;
      && stored == Some(last) && last.baseSha == Some(run.pr.baseSha) && NamesItsGaps(last)
      && plan.files == DeltaFiles(run.pr.files, records, Gaps(last))
      && plan.invalidatedPaths == InvalidatedPaths(records)
      && RecordsOk(records, repo.tree(last.lastReviewedCommit), repo.tree(run.pr.headSha),
                   repo.listing(run.pr.baseSha, last.lastReviewedCommit), run.pr.files, Gaps(last))
  {
    hide RecordsOk, UnpickedAreCovered, RenderRecords, SplitNul, ParseRecords, Names;
    var last := stored.value;
    var old_, head := repo.tree(last.lastReviewedCommit), repo.tree(run.pr.headSha);
    var before := repo.listing(run.pr.baseSha, last.lastReviewedCommit);
    records :| run.output.value == RenderRecords(records)
      && RecordsOk(records, old_, head, before, run.pr.files, Gaps(last));
    CorrectRecords(records, old_, head, before, run.pr.files, Gaps(last));
    ParseRendered(records);
  }

  lemma CorrectRecords(records: seq<DiffRecord>, old_: Tree, head: Tree, before: seq<FileChange>,
                       listed: seq<FileChange>, gaps: seq<string>)
    requires RecordsOk(records, old_, head, before, listed, gaps)
    ensures forall d | d in records :: GitRecord(d)
  {
  }

  /** A delta run of a history merges to a full review of the head, on all it did not miss. */
  lemma DeltaRunFindings(config: Config, repo: Repository, stored: Option<Snapshot>, covered: set<string>,
                         run: RunInput)
    requires OnPath(repo.review(run.pr.baseSha)) && StoredOk(repo, stored, covered)
    requires RunOk(config, repo, stored, run) && CoverageOk(config, stored, run)
    requires PlanOf(config, stored, run).Delta?
    ensures ReviewOf(repo.review(run.pr.baseSha), repo.tree(run.pr.headSha),
                     Names(run.pr.files) - NameSet(run.missed), RunFindings(config, repo, stored, run))
    ensures multiset(RunFindings(config, repo, stored, run))
         == multiset(FindingsOf(repo.review(run.pr.baseSha), repo.tree(run.pr.headSha),
                                Without(run.pr.files, run.missed)))
  {
    hide CorrectDiff, ChangedAreHit, NamesakesAreHit, UnpickedAreCovered, RenderRecords, OnPath, ReviewOf, Faithful,
      DeltaFiles, InvalidatedPaths, FindingsOf, Without, DeltaFindings, DistinctNames, Names, NameSet, ChangeSetOf,
      CoversListed;
    var records := DeltaPlan(config, repo, stored, run);
    var last, listed := stored.value, run.pr.files;
    var old_, head := repo.tree(last.lastReviewedCommit), repo.tree(run.pr.headSha);
    var before := repo.listing(run.pr.baseSha, last.lastReviewedCommit);
    PlanIsFaithfulIff(old_, head, before, listed, records, Gaps(last));
    DeltaFilesNames(listed, records, Gaps(last));
    CoveredIsListed(old_, covered, before, Gaps(last));
    SameCovered(repo.review(run.pr.baseSha), old_, covered, Names(before) - NameSet(Gaps(last)), last.findings);
    DeltaIsFullReview(repo.review(run.pr.baseSha), old_, head, Names(before) - NameSet(Gaps(last)), last.findings,
                      DeltaFiles(listed, records, Gaps(last)), InvalidatedPaths(records), run.missed, listed);
  }

  lemma CoveredIsListed(tree: Tree, covered: set<string>, listed: seq<FileChange>, gaps: seq<string>)
    requires CoversListed(tree, covered, listed, gaps)
    ensures forall p :: p in tree ==> (p in covered <==> p in Names(listed) - NameSet(gaps))
  {
  }

  /** What a delta keeps and reviews is, at the head, all the listed files it did not miss. */
  lemma DeltaCovers(config: Config, repo: Repository, stored: Option<Snapshot>, covered: set<string>, run: RunInput)
    requires StoredOk(repo, stored, covered) && RunOk(config, repo, stored, run) && CoverageOk(config, stored, run)
    requires PlanOf(config, stored, run).Delta?
    ensures var plan := PlanOf(config, stored, run);
      && Names(plan.files) <= Names(run.pr.files)
      && forall p :: p in repo.tree(run.pr.headSha) ==>
        (p in (covered - DroppedPaths(plan.files, plan.invalidatedPaths)) + (Names(plan.files) - NameSet(run.missed))
         <==> p in Names(run.pr.files) - NameSet(run.missed))
  {
    hide CorrectDiff, ChangedAreHit, NamesakesAreHit, UnpickedAreCovered, ReviewOf, DeltaFiles, InvalidatedPaths,
      DistinctNames, DroppedPaths, ChangeSetOf, Names;
    var records := DeltaPlan(config, repo, stored, run);
    var last, listed := stored.value, run.pr.files;
    var old_, head := repo.tree(last.lastReviewedCommit), repo.tree(run.pr.headSha);
    var before := repo.listing(run.pr.baseSha, last.lastReviewedCommit);
    var files, invalidated := DeltaFiles(listed, records, Gaps(last)), InvalidatedPaths(records);
    PlanIsFaithfulIff(old_, head, before, listed, records, Gaps(last));
    DeltaFilesNames(listed, records, Gaps(last));
    CoveredIsListed(old_, covered, before, Gaps(last));
    forall p | p in head && p !in Names(files)
      ensures p in covered && p !in DroppedPaths(files, invalidated) <==> p in Names(listed)
    {
      Unnamed(old_, head, records, p);
      InvalidatedAreDropped(files, invalidated, p);
    }
    NamesAreDropped(files, invalidated);
  }

  lemma NamesAreDropped(files: seq<FileChange>, invalidated: seq<string>)
    ensures Names(files) <= DroppedPaths(files, invalidated)
  {
  }

  lemma RunKeeps(config: Config, repo: Repository, stored: Option<Snapshot>, covered: set<string>, run: RunInput)
    requires OnPath(repo.review(run.pr.baseSha)) && StoredOk(repo, stored, covered) && RunOk(config, repo, stored, run)
    ensures StoredOk(repo, RunOnce(config, repo, stored, run), CoveredOnce(config, stored, covered, run))
  {
    hide OnPath, ReviewOf, FindingsOf, Without, DeltaFindings, DistinctNames, DiffOk, Names, DroppedPaths, RunFindings;
    if Advances(config, stored, run) {
      var plan := PlanOf(config, stored, run);
      var review, head := repo.review(run.pr.baseSha), repo.tree(run.pr.headSha);
      var after := CoveredOnce(config, stored, covered, run);
      var reviewed := Names(run.pr.files) - NameSet(run.missed);
      if plan.Delta? {
        DeltaRunFindings(config, repo, stored, covered, run);
        DeltaCovers(config, repo, stored, covered, run);
      } else {
        FullPlan(config, repo, stored, run);
        FullRunFindings(review, head, run.pr.files, run.missed);
      }
      SameCovered(review, head, reviewed, after, RunFindings(config, repo, stored, run));
      assert NameSet(run.missed) <= Names(run.pr.files);
    }
  }

  lemma FullPlan(config: Config, repo: Repository, stored: Option<Snapshot>, run: RunInput)
    requires PlanOf(config, stored, run).Full?
    ensures PlanOf(config, stored, run).files == run.pr.files
    ensures RunFindings(config, repo, stored, run)
         == FindingsOf(repo.review(run.pr.baseSha), repo.tree(run.pr.headSha), Without(run.pr.files, run.missed))
  {
    hide FindingsOf, Without, SplitNul, ParseRecords;
  }

  // ---- main results ----

  /** After every history the stored findings are those of reviewing, at the saved revision, the paths the history
      covers, however many deltas they were merged from; and these are all the listed files, less the gaps it names,
      whenever the snapshot is complete or names gaps. */
  lemma {:induction false} HistoryIsFullReview(config: Config, repo: Repository, runs: seq<RunInput>)
    requires HistoryOk(config, repo, runs)
    ensures StoredOk(repo, After(config, repo, runs), Covered(config, repo, runs))
  {
    hide StoredOk, RunOk, RunOnce, OnPath, CoveredOnce;
    if runs == [] {
      NothingStored(repo);
    } else {
      var last := |runs| - 1;
      HistoryPrefix(config, repo, runs, last);
      HistoryIsFullReview(config, repo, runs[..last]);
      assert RunOk(config, repo, After(config, repo, runs[..last]), runs[last]);
      RunKeeps(config, repo, After(config, repo, runs[..last]), Covered(config, repo, runs[..last]), runs[last]);
    }
  }

  lemma NothingStored(repo: Repository)
    ensures StoredOk(repo, None, {})
  {
  }

  lemma HistoryPrefix(config: Config, repo: Repository, runs: seq<RunInput>, n: nat)
    requires HistoryOk(config, repo, runs) && n <= |runs|
    ensures HistoryOk(config, repo, runs[..n])
  {
    hide RunOk, After, OnPath;
    forall i | 0 <= i < n ensures RunOk(config, repo, After(config, repo, runs[..n][..i]), runs[..n][i]) {
      assert runs[..n][..i] == runs[..i];
    }
  }

  /** A completed review is reused only at the same head and base with nothing left unreviewed, and
      its findings are then the full review of that revision. */
  lemma ReuseIsFullReview(config: Config, repo: Repository, runs: seq<RunInput>, next: RunInput)
    requires HistoryOk(config, repo, runs) && ListedOk(repo, next.pr)
    requires PlanOf(config, After(config, repo, runs), next).ReuseCompleted?
    ensures var last := PlanOf(config, After(config, repo, runs), next).last;
      && last.lastReviewedCommit == next.pr.headSha && last.baseSha == Some(next.pr.baseSha) && Gaps(last) == []
      && multiset(last.findings)
         == multiset(FindingsOf(repo.review(next.pr.baseSha), repo.tree(next.pr.headSha), next.pr.files))
  {
    hide FindingsOf, OnPath, After, Covered, RunOk;
    HistoryIsFullReview(config, repo, runs);
    var last := PlanOf(config, After(config, repo, runs), next).last;
    var review, head := repo.review(next.pr.baseSha), repo.tree(next.pr.headSha);
    SameCovered(review, head, Covered(config, repo, runs), Names(next.pr.files), last.findings);
    forall x: Finding
      ensures multiset(last.findings)[x] == multiset(FindingsOf(review, head, next.pr.files))[x]
    {
      CountFindings(review, head, next.pr.files, x);
    }
  }

  /** The stored review speaks of the path, and of the content it has at the head. */
  ghost predicate StillCovered(repo: Repository, last: Snapshot, covered: set<string>, pr: PullRequest, p: string) {
    var old_, head := repo.tree(last.lastReviewedCommit), repo.tree(pr.headSha);
    && last.baseSha == Some(pr.baseSha)
    && p in covered && p in old_ && p in head && old_[p] == head[p]
    && forall x: Finding | x.file == p ::
         multiset(last.findings)[x] == multiset(Reported(repo.review(pr.baseSha), head, p))[x]
  }

  /** No file slips through, whatever the saves before reported of their coverage: unless the plan is full, a listed
      file present at the head is planned, or the stored review really covers it with the content it has now and
      holds exactly what reviewing that content reports. */
  lemma NothingSlipsThrough(config: Config, repo: Repository, runs: seq<RunInput>, next: RunInput, f: FileChange)
    requires HistoryOk(config, repo, runs) && RunOk(config, repo, After(config, repo, runs), next)
    requires f in next.pr.files && f.filename in repo.tree(next.pr.headSha)
    ensures var stored := After(config, repo, runs); var plan := PlanOf(config, stored, next);
      || (plan.Full? && plan.files == next.pr.files)
      || (plan.Delta? && f.filename in Names(plan.files))
      || (stored.Some? && StillCovered(repo, stored.value, Covered(config, repo, runs), next.pr, f.filename))
  {
    hide OnPath, StoredOk, RunOk, After, Covered, StillCovered, PlanOf, Names;
    HistoryIsFullReview(config, repo, runs);
    SlipsAt(config, repo, After(config, repo, runs), Covered(config, repo, runs), next, f);
  }

  lemma SlipsAt(config: Config, repo: Repository, stored: Option<Snapshot>, covered: set<string>, next: RunInput,
                f: FileChange)
    requires StoredOk(repo, stored, covered) && RunOk(config, repo, stored, next)
    requires f in next.pr.files && f.filename in repo.tree(next.pr.headSha)
    ensures var plan := PlanOf(config, stored, next);
      || (plan.Full? && plan.files == next.pr.files)
      || (plan.Delta? && f.filename in Names(plan.files))
      || (stored.Some? && StillCovered(repo, stored.value, covered, next.pr, f.filename))
  {
    hide RecordsOk, DeltaFiles, InvalidatedPaths, DistinctNames, DroppedPaths, RenderRecords, ParseRecords,
      ChangedFiles, SplitNul;
    var plan := PlanOf(config, stored, next);
    if plan.Delta? {
      var records := DeltaPlan(config, repo, stored, next);
      UnplannedIsCovered(config, repo, stored, covered, next, records, f);
    } else if plan.ReuseCompleted? {
      assert f.filename in Names(next.pr.files);
    }
  }

  lemma UnplannedIsCovered(config: Config, repo: Repository, stored: Option<Snapshot>, covered: set<string>,
                           next: RunInput, records: seq<DiffRecord>, f: FileChange)
    requires stored.Some? && SnapshotOk(repo, stored.value, covered) && NamesItsGaps(stored.value)
    requires ListedOk(repo, next.pr) && stored.value.baseSha == Some(next.pr.baseSha)
    requires var old_, head := repo.tree(stored.value.lastReviewedCommit), repo.tree(next.pr.headSha);
      RecordsOk(records, old_, head, repo.listing(next.pr.baseSha, stored.value.lastReviewedCommit), next.pr.files,
                Gaps(stored.value))
    requires f in next.pr.files && f.filename in repo.tree(next.pr.headSha)
    ensures f.filename in Names(DeltaFiles(next.pr.files, records, Gaps(stored.value)))
         || StillCovered(repo, stored.value, covered, next.pr, f.filename)
  {
    hide CorrectDiff, DeltaFiles, InvalidatedPaths, DistinctNames, DroppedPaths, ChangedAreHit, NamesakesAreHit,
      UnpickedAreCovered;
    var last, listed := stored.value, next.pr.files;
    var old_, head := repo.tree(last.lastReviewedCommit), repo.tree(next.pr.headSha);
    var before := repo.listing(next.pr.baseSha, last.lastReviewedCommit);
    PlanIsFaithfulIff(old_, head, before, listed, records, Gaps(last));
    assert f.filename in Names(listed);
  }

  // ---- what a save means to the next plan ----

  /** The stored review, whoever saved it, may be used for the pull request: it is young enough, of the same base and
      knows what it covers; and, where a compatible one is required, of the right form, under the same key and not
      expired. */
  predicate MayBeUsed(config: Config, last: Snapshot, pr: PullRequest, now: int) {
    && config.enabled && now - last.timestamp <= config.cacheTtlDays * MS_PER_DAY
    && last.baseSha == Some(pr.baseSha) && NamesItsGaps(last)
    && (config.requireCompatibleSnapshot ==>
          && last.schemaVersion == Some(1)
          && config.compatibilityKey.Some? && config.compatibilityKey.value != ""
          && last.compatibilityKey == config.compatibilityKey
          && last.expiresAt.Some? && last.expiresAt.value != 0 && now < last.expiresAt.value)
  }

  /** Whatever is stored: it is reused if and only if it may be used and is complete at the same head, built upon if and
      only if it may be used and is not reused, and else the review is full. */
  lemma StoredReviewIsUsed(config: Config, stored: Option<Snapshot>, pr: PullRequest, now: int)
    ensures var d := Decide(config, stored, pr, now);
      var usable := stored.Some? && MayBeUsed(config, stored.value, pr, now);
      var done := stored.Some? && CoverageComplete(stored.value) && stored.value.lastReviewedCommit == pr.headSha;
      && (d.Reuse? <==> usable && done)
      && (d.DeltaFrom? <==> usable && !done)
      && (!d.FullReview? ==> d.last == stored.value)
  {
  }

  /** The clock and the key let a save be used. */
  predicate Usable(config: Config, savedAt: int, now: int) {
    var ttl := config.cacheTtlDays * MS_PER_DAY;
    && config.enabled && now - savedAt <= ttl
    && (config.requireCompatibleSnapshot ==>
          config.compatibilityKey.Some? && config.compatibilityKey.value != ""
          && savedAt + ttl != 0 && now < savedAt + ttl)
  }

  /** What the next plan makes of a saved review. It is reused as it is exactly at the same head and base when it was
      complete; it is built upon exactly when the base is the same, it was complete or named gaps, and it is not
      reused; and otherwise the next review is full. What is used are its findings, its revision and its gaps. */
  lemma SavedReviewIsUsed(config: Config, pr: PullRequest, findings: seq<Finding>, coverage: Option<Coverage>,
                          savedAt: int, next: PullRequest, now: int)
    ensures
      var complete := coverage.None? || coverage.value.complete;
      var gaps := if coverage.Some? then coverage.value.unreviewedPaths else [];
      var usable := Usable(config, savedAt, now) && next.baseSha == pr.baseSha;
      var d := Decide(config, Some(SavedSnapshot(config, pr, findings, coverage, savedAt)), next, now);
      && (d.Reuse? <==> usable && complete && next.headSha == pr.headSha)
      && (d.DeltaFrom? <==> usable && (complete || gaps != []) && !(complete && next.headSha == pr.headSha))
      && (!d.FullReview? ==>
            d.last.findings == findings && d.last.lastReviewedCommit == pr.headSha && Gaps(d.last) == gaps)
  {
  }
}
