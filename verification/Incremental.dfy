/** `IncrementalReviewer` (src/cache/incremental.ts): which files a new head must have reviewed
    again, and how their findings are merged with those of the last saved review. */
module Incremental {
  import opened Options

  datatype FileChange = FileChange(filename: string, previousFilename: Option<string>)

  datatype Finding = Finding(file: string, text: string)

  datatype PullRequest = PullRequest(number: nat, headSha: string, baseSha: string, files: seq<FileChange>)

  datatype Coverage = Coverage(complete: bool, unreviewedPaths: seq<string>)

  /** The saved review; the optional parts are missing from older ones. */
  datatype Snapshot = Snapshot(
    prNumber: nat,
    lastReviewedCommit: string,
    timestamp: int,
    findings: seq<Finding>,
    schemaVersion: Option<int>,
    baseSha: Option<string>,
    compatibilityKey: Option<string>,
    expiresAt: Option<int>,
    coverageComplete: Option<bool>,
    unreviewedPaths: Option<seq<string>>)

  datatype Config = Config(
    enabled: bool,
    cacheTtlDays: int,
    compatibilityKey: Option<string>,
    requireCompatibleSnapshot: bool)

  const MS_PER_DAY: int := 24 * 60 * 60 * 1000

  datatype Decision = FullReview | DeltaFrom(last: Snapshot) | Reuse(last: Snapshot)

  datatype Plan =
    | Full(files: seq<FileChange>)
    | Delta(files: seq<FileChange>, invalidatedPaths: seq<string>, last: Snapshot)
    | ReuseCompleted(last: Snapshot)

  // ---- decision ----

  /** `requireCompatibleSnapshot`: a missing or empty key and a missing or zero expiry never qualify. */
  predicate Compatible(config: Config, last: Snapshot, pr: PullRequest, now: int) {
    && last.schemaVersion == Some(1)
    && last.baseSha == Some(pr.baseSha)
    && config.compatibilityKey.Some? && config.compatibilityKey.value != ""
    && last.compatibilityKey == config.compatibilityKey
    && last.expiresAt.Some? && last.expiresAt.value != 0 && last.expiresAt.value > now
  }

  function CoverageComplete(last: Snapshot): bool {
    last.coverageComplete != Some(false)
  }

  function Gaps(last: Snapshot): seq<string> {
    if last.unreviewedPaths.Some? then last.unreviewedPaths.value else []
  }

  function Decide(config: Config, stored: Option<Snapshot>, pr: PullRequest, now: int): Decision {
    if !config.enabled then FullReview
    else if stored.None? then FullReview
    else
      var last := stored.value;
      if config.requireCompatibleSnapshot && !Compatible(config, last, pr, now) then FullReview
      else if now - last.timestamp > config.cacheTtlDays * MS_PER_DAY then FullReview
      else if last.baseSha != Some(pr.baseSha) then FullReview
      else if !CoverageComplete(last) && Gaps(last) == [] then FullReview
      else if last.lastReviewedCommit == pr.headSha && CoverageComplete(last) then Reuse(last)
      else DeltaFrom(last)
  }

  // ---- the -z output of git diff --name-status ----

  datatype DiffRecord = DiffRecord(status: string, previous: Option<string>, filename: string)

  predicate Renames(status: string) {
    status != "" && (status[0] == 'R' || status[0] == 'C')
  }

  /** `output.split('\0')` */
  function SplitNul(output: string): (fields: seq<string>)
    ensures fields != []
  {
    if output == "" then [""]
    else
      var rest := SplitNul(output[1..]);
      if output[0] == '\0' then [""] + rest else [[output[0]] + rest[0]] + rest[1..]
  }

  /** How many fields the record at the head of `fields` takes. */
  function RecordLength(fields: seq<string>): (n: nat)
    requires fields != []
  {
    if Renames(fields[0]) then 3 else 2
  }

  function HeadRecord(fields: seq<string>): DiffRecord
    requires fields != []
  {
    var at := RecordLength(fields) - 1;
    DiffRecord(fields[0],
               if Renames(fields[0]) && |fields| > 1 then Some(fields[1]) else None,
               if |fields| > at then fields[at] else "")
  }

  function From(fields: seq<string>, n: nat): seq<string> {
    if n <= |fields| then fields[n..] else []
  }

  /** The records with a file name, up to the first empty status. */
  function ParseRecords(fields: seq<string>): seq<DiffRecord>
    decreases |fields|
  {
    if fields == [] || fields[0] == "" then []
    else
      var head := HeadRecord(fields);
      var n := RecordLength(fields);
      var rest := ParseRecords(From(fields, n));
      if head.filename == "" then rest else [head] + rest
  }

  // ---- change set ----

  function Names(files: seq<FileChange>): set<string> {
    set f | f in files :: f.filename
  }

  predicate Matches(f: FileChange, d: DiffRecord) {
    f.filename == d.filename || (d.previous.Some? && f.previousFilename == d.previous)
  }

  /** `pr.files.find` */
  function FirstMatch(files: seq<FileChange>, d: DiffRecord): Option<FileChange> {
    if files == [] then None
    else if Matches(files[0], d) then Some(files[0])
    else FirstMatch(files[1..], d)
  }

  function AddFile(changed: seq<FileChange>, found: Option<FileChange>): seq<FileChange> {
    if found.Some? && found.value.filename !in Names(changed) then changed + [found.value] else changed
  }

  function ChangedFiles(files: seq<FileChange>, records: seq<DiffRecord>): seq<FileChange> {
    if records == [] then []
    else
      var last := |records| - 1;
      AddFile(ChangedFiles(files, records[..last]), FirstMatch(files, records[last]))
  }

  function AddPath(paths: seq<string>, p: string): seq<string> {
    if p in paths then paths else paths + [p]
  }

  function AddRecordPaths(paths: seq<string>, d: DiffRecord): seq<string> {
    var named := AddPath(paths, d.filename);
    if d.previous.Some? && d.previous.value != "" then AddPath(named, d.previous.value) else named
  }

  function InvalidatedPaths(records: seq<DiffRecord>): seq<string> {
    if records == [] then []
    else
      var last := |records| - 1;
      AddRecordPaths(InvalidatedPaths(records[..last]), records[last])
  }

  datatype ChangeSet = ChangeSet(files: seq<FileChange>, invalidatedPaths: seq<string>, canReuse: bool)

  predicate ShaUnit(c: char) {
    '0' <= c <= '9' || 'a' <= c <= 'f' || 'A' <= c <= 'F'
  }

  predicate ValidSha(sha: string) {
    |sha| == 40 && forall i :: 0 <= i < |sha| ==> ShaUnit(sha[i])
  }

  /** The change set for git's output, if git ran. */
  function ChangeSetOf(pr: PullRequest, lastCommit: string, output: Option<string>): ChangeSet {
    if !ValidSha(lastCommit) || !ValidSha(pr.headSha) || output.None? then ChangeSet(pr.files, [], false)
    else
      var records := ParseRecords(SplitNul(output.value));
      ChangeSet(ChangedFiles(pr.files, records), InvalidatedPaths(records), true)
  }

  // ---- uncovered files, plan, merge, save ----

  predicate Uncovered(f: FileChange, gaps: seq<string>) {
    f.filename in gaps || (f.previousFilename.Some? && f.previousFilename.value in gaps)
  }

  function AddUncovered(merged: seq<FileChange>, gaps: seq<string>, files: seq<FileChange>): seq<FileChange> {
    if files == [] then merged
    else
      var last := |files| - 1;
      var before := AddUncovered(merged, gaps, files[..last]);
      if Uncovered(files[last], gaps) then AddFile(before, Some(files[last])) else before
  }

  function PlanReview(config: Config, stored: Option<Snapshot>, pr: PullRequest, now: int,
                      output: Option<string>): Plan {
    match Decide(config, stored, pr, now)
    case FullReview => Full(pr.files)
    case Reuse(last) => ReuseCompleted(last)
    case DeltaFrom(last) =>
      var changes := ChangeSetOf(pr, last.lastReviewedCommit, output);
      if !changes.canReuse then Full(changes.files)
      else Delta(AddUncovered(changes.files, Gaps(last), pr.files), changes.invalidatedPaths, last)
  }

  /** The paths whose previous findings `mergeFindings` drops. */
  function DroppedPaths(changed: seq<FileChange>, invalidated: seq<string>): set<string> {
    Names(changed)
    + (set f | f in changed && f.previousFilename.Some? && f.previousFilename.value != "" :: f.previousFilename.value)
    + (set p | p in invalidated)
  }

  function KeepOutside(findings: seq<Finding>, dropped: set<string>): seq<Finding> {
    if findings == [] then []
    else if findings[0].file in dropped then KeepOutside(findings[1..], dropped)
    else [findings[0]] + KeepOutside(findings[1..], dropped)
  }

  function MergeFindings(previous: seq<Finding>, added: seq<Finding>, changed: seq<FileChange>,
                         invalidated: seq<string>): seq<Finding> {
    KeepOutside(previous, DroppedPaths(changed, invalidated)) + added
  }

  function SavedSnapshot(config: Config, pr: PullRequest, findings: seq<Finding>, coverage: Option<Coverage>,
                         now: int): Snapshot {
    Snapshot(pr.number, pr.headSha, now, findings, Some(1), Some(pr.baseSha),
             if config.compatibilityKey == Some("") then None else config.compatibilityKey,
             Some(now + config.cacheTtlDays * MS_PER_DAY),
             Some(coverage.None? || coverage.value.complete),
             Some(if coverage.Some? then coverage.value.unreviewedPaths else []))
  }

  // ---- the loops and the stored state ----

  lemma NextRecord(fields: seq<string>, index: nat)
    requires index < |fields| && fields[index] != ""
    ensures var rest := fields[index..];
      ParseRecords(From(fields, index))
      == (if HeadRecord(rest).filename == "" then [] else [HeadRecord(rest)])
         + ParseRecords(From(fields, index + RecordLength(rest)))
  {
    var rest := fields[index..];
    assert From(rest, RecordLength(rest)) == From(fields, index + RecordLength(rest));
  }

  lemma OneMoreRecord(files: seq<FileChange>, done: seq<DiffRecord>, d: DiffRecord)
    ensures ChangedFiles(files, done + [d]) == AddFile(ChangedFiles(files, done), FirstMatch(files, d))
    ensures InvalidatedPaths(done + [d]) == AddRecordPaths(InvalidatedPaths(done), d)
  {
    assert (done + [d])[..|done|] == done;
  }

  /** The loop of `getIncrementalChangeSet` over the fields. */
  method CollectChanges(files: seq<FileChange>, output: string)
      returns (changed: seq<FileChange>, invalidated: seq<string>)
    ensures var records := ParseRecords(SplitNul(output));
      changed == ChangedFiles(files, records) && invalidated == InvalidatedPaths(records)
  {
    hide ParseRecords, ChangedFiles, InvalidatedPaths, AddFile, FirstMatch, AddRecordPaths;
    var fields := SplitNul(output);
    var index := 0;
    ghost var done: seq<DiffRecord> := [];
    changed, invalidated := [], [];
    NoRecords(files, fields);
    while index < |fields| && fields[index] != ""
      invariant 0 <= index
      invariant ParseRecords(fields) == done + ParseRecords(From(fields, index))
      invariant changed == ChangedFiles(files, done) && invalidated == InvalidatedPaths(done)
      decreases |fields| - index
    {
      NextRecord(fields, index);
      ghost var head := HeadRecord(fields[index..]);
      var status := fields[index];
      index := index + 1;
      var previous := None;
      if Renames(status) {
        previous := if index < |fields| then Some(fields[index]) else None;
        index := index + 1;
      }
      var filename := if index < |fields| then fields[index] else "";
      index := index + 1;
      assert head == DiffRecord(status, previous, filename);
      if filename != "" {
        OneMoreRecord(files, done, head);
        invalidated := AddRecordPaths(invalidated, DiffRecord(status, previous, filename));
        changed := AddFile(changed, FirstMatch(files, DiffRecord(status, previous, filename)));
        done := done + [head];
      }
    }
    NoRecords(files, From(fields, index));
    assert From(fields, index) == [] || From(fields, index)[0] == "";
    assert done + [] == done;
  }

  lemma NoRecords(files: seq<FileChange>, fields: seq<string>)
    ensures fields == [] || fields[0] == "" ==> ParseRecords(fields) == []
    ensures ChangedFiles(files, []) == [] && InvalidatedPaths([]) == []
    ensures From(fields, 0) == fields
  {
  }

  /** `mergeUncoveredFiles` */
  method MergeUncoveredFiles(changed: seq<FileChange>, last: Snapshot, files: seq<FileChange>)
      returns (merged: seq<FileChange>)
    ensures merged == AddUncovered(changed, Gaps(last), files)
  {
    var gaps := Gaps(last);
    if gaps == [] {
      NothingUncovered(changed, files);
      return changed;
    }
    merged := changed;
    var known := Names(changed);
    for i := 0 to |files|
      invariant merged == AddUncovered(changed, gaps, files[..i])
      invariant known == Names(merged)
    {
      assert files[..i + 1][..i] == files[..i];
      if Uncovered(files[i], gaps) && files[i].filename !in known {
        merged := merged + [files[i]];
        known := known + {files[i].filename};
      }
    }
    assert files[..|files|] == files;
  }

  lemma NothingUncovered(merged: seq<FileChange>, files: seq<FileChange>)
    ensures AddUncovered(merged, [], files) == merged
  {
  }

  class IncrementalReviewer {
    const config: Config
    /** What the storage port holds, by pull request number. */
    var storage: map<nat, Snapshot>

    constructor (config: Config)
      ensures this.config == config && storage == map[]
    {
      this.config := config;
      storage := map[];
    }

    function Stored(number: nat): Option<Snapshot>
      reads this
    {
      if number in storage then Some(storage[number]) else None
    }

    method Plan(pr: PullRequest, now: int, output: Option<string>) returns (plan: Plan)
      ensures plan == PlanReview(config, Stored(pr.number), pr, now, output)
    {
      var decision := Decide(config, Stored(pr.number), pr, now);
      match decision {
        case FullReview => return Full(pr.files);
        case Reuse(last) => return ReuseCompleted(last);
        case DeltaFrom(last) =>
          if !ValidSha(last.lastReviewedCommit) || !ValidSha(pr.headSha) || output.None? {
            return Full(pr.files);
          }
          var changed, invalidated := CollectChanges(pr.files, output.value);
          var files := MergeUncoveredFiles(changed, last, pr.files);
          return Delta(files, invalidated, last);
      }
    }

    method SaveReview(pr: PullRequest, findings: seq<Finding>, coverage: Option<Coverage>, now: int)
      modifies this
      ensures storage == old(storage)[pr.number := SavedSnapshot(config, pr, findings, coverage, now)]
    {
      storage := storage[pr.number := SavedSnapshot(config, pr, findings, coverage, now)];
    }
  }
}
