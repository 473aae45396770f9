/** A delta review merged with the saved findings is a full review, over every history of runs. */
module IncrementalLaws {
  import opened Options
  import opened Incremental

  // ---- git's output ----

  predicate Plain(s: string) {
    s != "" && '\0' !in s
  }

  /** A record as git writes it. */
  ghost predicate GitRecord(d: DiffRecord) {
    Plain(d.status) && Plain(d.filename)
    && (if Renames(d.status) then d.previous.Some? && Plain(d.previous.value) else d.previous.None?)
  }

  function Terminated(s: string): string { s + "\0" }

  function RenderRecord(d: DiffRecord): string {
    Terminated(d.status) + ((if d.previous.Some? then Terminated(d.previous.value) else "") + Terminated(d.filename))
  }

  function RenderRecords(records: seq<DiffRecord>): string {
    if records == [] then "" else RenderRecord(records[0]) + RenderRecords(records[1..])
  }

  lemma SplitTerminated(s: string, rest: string)
    requires '\0' !in s
    ensures SplitNul(Terminated(s) + rest) == [s] + SplitNul(rest)
  {
    if s == "" {
      assert Terminated(s) + rest == ['\0'] + rest;
      assert (['\0'] + rest)[1..] == rest;
    } else {
      SplitTerminated(s[1..], rest);
      assert (Terminated(s) + rest)[1..] == Terminated(s[1..]) + rest;
      assert [s[0]] + s[1..] == s;
    }
  }

  lemma SplitRecord(d: DiffRecord, rest: string)
    requires GitRecord(d)
    ensures SplitNul(RenderRecord(d) + rest)
         == [d.status] + ((if d.previous.Some? then [d.previous.value] else []) + ([d.filename] + SplitNul(rest)))
  {
    hide SplitNul;
    SplitTerminated(d.filename, rest);
    if d.previous.Some? {
      var tail := Terminated(d.filename) + rest;
      SplitTerminated(d.previous.value, tail);
      SplitTerminated(d.status, Terminated(d.previous.value) + tail);
      assert RenderRecord(d) + rest == Terminated(d.status) + (Terminated(d.previous.value) + tail);
    } else {
      SplitTerminated(d.status, Terminated(d.filename) + rest);
      assert RenderRecord(d) + rest == Terminated(d.status) + (Terminated(d.filename) + rest);
    }
  }

  lemma NothingRendered()
    ensures SplitNul("") == [""]
  {
  }

  /** The record loop reads back exactly the records git wrote. */
  lemma {:induction false} ParseRendered(records: seq<DiffRecord>)
    requires forall d | d in records :: GitRecord(d)
    ensures ParseRecords(SplitNul(RenderRecords(records))) == records
  {
    hide SplitNul, RenderRecord;
    if records == [] {
      NothingRendered();
    } else {
      var d, rest := records[0], RenderRecords(records[1..]);
      ParseRendered(records[1..]);
      SplitRecord(d, rest);
      var fields := SplitNul(RenderRecords(records));
      assert HeadRecord(fields) == d;
      assert From(fields, RecordLength(fields)) == SplitNul(rest);
      assert records == [d] + records[1..];
    }
  }

  // ---- counting findings ----

  type Tree = map<string, string>

  /** One reviewer, run on the content a path has at the reviewed head, with the base fixed. */
  type Review = (string, string) -> seq<Finding>

  ghost predicate OnPath(review: Review) {
    forall p, content :: forall x | x in review(p, content) :: x.file == p
  }

  /** What reviewing a path reports; a path absent at the head has nothing to report. */
  function Reported(review: Review, tree: Tree, p: string): seq<Finding> {
    if p in tree then review(p, tree[p]) else []
  }

  function FindingsOf(review: Review, tree: Tree, files: seq<FileChange>): seq<Finding> {
    if files == [] then [] else Reported(review, tree, files[0].filename) + FindingsOf(review, tree, files[1..])
  }

  ghost predicate DistinctNames(files: seq<FileChange>) {
    forall i, j :: 0 <= i < j < |files| ==> files[i].filename != files[j].filename
  }

  lemma {:induction false} CountFindings(review: Review, tree: Tree, files: seq<FileChange>, x: Finding)
    requires OnPath(review) && DistinctNames(files)
    ensures multiset(FindingsOf(review, tree, files))[x]
         == if x.file in Names(files) then multiset(Reported(review, tree, x.file))[x] else 0
  {
    if files != [] {
      var p := files[0].filename;
      CountFindings(review, tree, files[1..], x);
      assert Names(files) == {p} + Names(files[1..]);
      assert p !in Names(files[1..]);
      assert multiset(FindingsOf(review, tree, files))
          == multiset(Reported(review, tree, p)) + multiset(FindingsOf(review, tree, files[1..]));
      if p != x.file {
        assert x !in Reported(review, tree, p);
        assert x !in multiset(Reported(review, tree, p));
      }
    }
  }

  lemma CountKept(findings: seq<Finding>, dropped: set<string>, x: Finding)
    ensures multiset(KeepOutside(findings, dropped))[x] == if x.file in dropped then 0 else multiset(findings)[x]
  {
    if findings != [] {
      CountKept(findings[1..], dropped, x);
      assert findings == [findings[0]] + findings[1..];
    }
  }

  function Without(files: seq<FileChange>, gaps: seq<string>): seq<FileChange> {
    if files == [] then []
    else if files[0].filename in gaps then Without(files[1..], gaps)
    else [files[0]] + Without(files[1..], gaps)
  }

  lemma WithoutNames(files: seq<FileChange>, gaps: seq<string>)
    ensures Names(Without(files, gaps)) == Names(files) - (set p | p in gaps)
    ensures forall f | f in Without(files, gaps) :: f in files
    ensures DistinctNames(files) ==> DistinctNames(Without(files, gaps))
  {
    if files != [] {
      var w := Without(files[1..], gaps);
      WithoutNames(files[1..], gaps);
      assert Names(files) == {files[0].filename} + Names(files[1..]);
      assert Names([files[0]] + w) == {files[0].filename} + Names(w);
      if DistinctNames(files) {
        forall i | 0 <= i < |w| ensures w[i].filename != files[0].filename {
          assert w[i] in files[1..];
        }
      }
    }
  }

  // ---- when a merged delta is a full review ----

  /** The saved findings are those of reviewing the `covered` paths of the old tree. */
  ghost predicate ReviewOf(review: Review, tree: Tree, covered: set<string>, findings: seq<Finding>) {
    forall x: Finding ::
      multiset(findings)[x] == if x.file in covered then multiset(Reported(review, tree, x.file))[x] else 0
  }

  /** The delta keeps the findings of exactly those unreviewed paths that a full review would report
      the same: kept means covered, present and not dropped; wanted means listed and present. */
  ghost predicate Faithful(old_: Tree, head: Tree, covered: set<string>, files: seq<FileChange>,
                           invalidated: seq<string>, listed: seq<FileChange>) {
    forall p :: p !in Names(files) ==>
      && ((p in covered && p in old_ && p !in DroppedPaths(files, invalidated)) <==> (p in Names(listed) && p in head))
      && (p in Names(listed) && p in head ==> p in old_ && old_[p] == head[p])
  }

  /** What the delta run produces: the files reviewed, less the ones it had to leave as gaps. */
  function DeltaFindings(review: Review, head: Tree, previous: seq<Finding>, files: seq<FileChange>,
                         invalidated: seq<string>, gaps: seq<string>): seq<Finding> {
    MergeFindings(previous, FindingsOf(review, head, Without(files, gaps)), files, invalidated)
  }

  function NameSet(paths: seq<string>): set<string> {
    set p | p in paths
  }

  lemma DeltaCount(review: Review, old_: Tree, head: Tree, covered: set<string>, previous: seq<Finding>,
                   files: seq<FileChange>, invalidated: seq<string>, gaps: seq<string>, x: Finding)
    requires OnPath(review) && ReviewOf(review, old_, covered, previous) && DistinctNames(files)
    ensures multiset(DeltaFindings(review, head, previous, files, invalidated, gaps))[x]
         == (if x.file in covered && x.file !in DroppedPaths(files, invalidated)
             then multiset(Reported(review, old_, x.file))[x] else 0)
          + (if x.file in Names(files) && x.file !in NameSet(gaps)
             then multiset(Reported(review, head, x.file))[x] else 0)
  {
    hide FindingsOf, Without, Names, DroppedPaths, KeepOutside, OnPath, Reported;
    WithoutNames(files, gaps);
    CountFindings(review, head, Without(files, gaps), x);
    CountKept(previous, DroppedPaths(files, invalidated), x);
  }

  /** A faithful delta, merged, has the findings of a full review of the new head, each as often. */
  lemma DeltaIsFullReview(review: Review, old_: Tree, head: Tree, covered: set<string>, previous: seq<Finding>,
                          files: seq<FileChange>, invalidated: seq<string>, gaps: seq<string>, listed: seq<FileChange>)
    requires OnPath(review) && ReviewOf(review, old_, covered, previous)
    requires DistinctNames(files) && DistinctNames(listed) && Names(files) <= Names(listed)
    requires NameSet(gaps) <= Names(files)
    requires Faithful(old_, head, covered, files, invalidated, listed)
    ensures multiset(DeltaFindings(review, head, previous, files, invalidated, gaps))
         == multiset(FindingsOf(review, head, Without(listed, gaps)))
    ensures ReviewOf(review, head, Names(listed) - NameSet(gaps),
                     DeltaFindings(review, head, previous, files, invalidated, gaps))
  {
    hide FindingsOf, Without, OnPath, DeltaFindings;
    var merged := DeltaFindings(review, head, previous, files, invalidated, gaps);
    WithoutNames(listed, gaps);
    forall x: Finding
      ensures multiset(merged)[x] == multiset(FindingsOf(review, head, Without(listed, gaps)))[x]
      ensures multiset(merged)[x]
           == if x.file in Names(listed) - NameSet(gaps) then multiset(Reported(review, head, x.file))[x] else 0
    {
      DeltaCount(review, old_, head, covered, previous, files, invalidated, gaps, x);
      CountFindings(review, head, Without(listed, gaps), x);
    }
  }

  /** A reviewer that reports the content of one path and nothing else. */
  function Witness(path: string): Review {
    (p, content) => if p == path then [Finding(p, content)] else []
  }

  /** The condition is exact: an unfaithful delta goes wrong for some reviewer, whatever gaps it leaves. */
  lemma UnfaithfulDeltaDiffers(old_: Tree, head: Tree, covered: set<string>, coveredFiles: seq<FileChange>,
                               files: seq<FileChange>, invalidated: seq<string>, gaps: seq<string>,
                               listed: seq<FileChange>)
      returns (review: Review, previous: seq<Finding>)
    requires DistinctNames(coveredFiles) && Names(coveredFiles) == covered
    requires DistinctNames(files) && DistinctNames(listed) && Names(files) <= Names(listed)
    requires NameSet(gaps) <= Names(files)
    requires !Faithful(old_, head, covered, files, invalidated, listed)
    ensures OnPath(review) && ReviewOf(review, old_, covered, previous)
    ensures multiset(DeltaFindings(review, head, previous, files, invalidated, gaps))
         != multiset(FindingsOf(review, head, Without(listed, gaps)))
  {
    hide FindingsOf, Without, DeltaFindings;
    var p :| p !in Names(files) &&
      !(&& ((p in covered && p in old_ && p !in DroppedPaths(files, invalidated))
           <==> (p in Names(listed) && p in head))
        && (p in Names(listed) && p in head ==> p in old_ && old_[p] == head[p]));
    review := Witness(p);
    previous := FindingsOf(review, old_, coveredFiles);
    forall x: Finding ensures multiset(previous)[x]
      == if x.file in covered then multiset(Reported(review, old_, x.file))[x] else 0
    {
      CountFindings(review, old_, coveredFiles, x);
    }
    var x := Finding(p, if p in head && p in Names(listed) then head[p] else if p in old_ then old_[p] else "");
    DeltaCount(review, old_, head, covered, previous, files, invalidated, gaps, x);
    WithoutNames(listed, gaps);
    CountFindings(review, head, Without(listed, gaps), x);
    assert p !in gaps;
    assert p in old_ ==> multiset(Reported(review, old_, p))[Finding(p, old_[p])] == 1;
    assert p in head ==> multiset(Reported(review, head, p))[Finding(p, head[p])] == 1;
  }

  // ---- the plan is faithful ----

  lemma AddFileNames(changed: seq<FileChange>, f: FileChange)
    requires DistinctNames(changed)
    ensures var r := AddFile(changed, Some(f));
      DistinctNames(r) && Names(r) == Names(changed) + {f.filename} && forall g | g in r :: g in changed || g == f
  {
    var r := AddFile(changed, Some(f));
    forall i | 0 <= i < |changed| ensures changed[i].filename in Names(changed) {
    }
    if f.filename !in Names(changed) {
      assert Names(r) == Names(changed) + {f.filename};
    }
  }

  lemma FirstMatchFound(files: seq<FileChange>, d: DiffRecord)
    ensures FirstMatch(files, d).Some? ==> FirstMatch(files, d).value in files && Matches(FirstMatch(files, d).value, d)
    ensures (exists f :: f in files && Matches(f, d)) ==> FirstMatch(files, d).Some?
  {
  }

  /** Some record finds the file first. */
  ghost predicate Found(listed: seq<FileChange>, records: seq<DiffRecord>, f: FileChange) {
    exists d :: d in records && FirstMatch(listed, d) == Some(f)
  }

  lemma ChangedFilesNames(files: seq<FileChange>, records: seq<DiffRecord>)
    ensures DistinctNames(ChangedFiles(files, records))
    ensures forall g | g in ChangedFiles(files, records) :: g in files && Found(files, records, g)
    ensures forall d | d in records && FirstMatch(files, d).Some? ::
      FirstMatch(files, d).value.filename in Names(ChangedFiles(files, records))
  {
    hide Names, AddFile;
    if records != [] {
      var last := |records| - 1;
      ChangedFilesNames(files, records[..last]);
      assert records == records[..last] + [records[last]];
      forall g | Found(files, records[..last], g) ensures Found(files, records, g) {
        var d :| d in records[..last] && FirstMatch(files, d) == Some(g);
        assert d in records;
      }
      var before, found := ChangedFiles(files, records[..last]), FirstMatch(files, records[last]);
      FirstMatchFound(files, records[last]);
      if found.Some? {
        AddFileNames(before, found.value);
        assert records[last] in records && Found(files, records, found.value);
      } else {
        AddNothing(before);
      }
    }
  }

  lemma AddNothing(changed: seq<FileChange>)
    ensures AddFile(changed, None) == changed
  {
  }

  lemma AddUncoveredNames(merged: seq<FileChange>, gaps: seq<string>, files: seq<FileChange>)
    requires DistinctNames(merged)
    ensures var r := AddUncovered(merged, gaps, files);
      && DistinctNames(r) && Names(merged) <= Names(r)
      && (forall g | g in r :: g in merged || (g in files && Uncovered(g, gaps)))
      && (forall f | f in files && Uncovered(f, gaps) :: f.filename in Names(r))
  {
    hide Names, AddFile, Uncovered;
    if files != [] {
      var last := |files| - 1;
      AddUncoveredNames(merged, gaps, files[..last]);
      assert files == files[..last] + [files[last]];
      AddFileNames(AddUncovered(merged, gaps, files[..last]), files[last]);
    }
  }

  lemma InvalidatedAreRecordPaths(records: seq<DiffRecord>, p: string)
    ensures p in InvalidatedPaths(records) <==>
      exists d :: d in records && (d.filename == p || (d.previous == Some(p) && p != ""))
  {
    if records != [] {
      var last := |records| - 1;
      InvalidatedAreRecordPaths(records[..last], p);
      assert records == records[..last] + [records[last]];
    }
  }

  /** What git lists between two trees with -M: a path is named exactly when its content differs, and
      the source of a rename is gone. */
  ghost predicate CorrectDiff(records: seq<DiffRecord>, old_: Tree, head: Tree) {
    && (forall d | d in records :: GitRecord(d))
    && (forall p :: (exists d :: d in records && (d.filename == p || d.previous == Some(p)))
                    <==> (p in old_) != (p in head) || (p in old_ && p in head && old_[p] != head[p]))
    && (forall d | d in records && d.previous.Some? :: d.previous.value !in head)
  }

  /** The listing of a head against a base: of the paths present at the head, those that differ from the base. */
  ghost predicate ListsChanges(base: Tree, head: Tree, listed: seq<FileChange>) {
    forall p :: p in head ==> (p in Names(listed) <==> !(p in base && base[p] == head[p]))
  }

  /** A path present in both trees with the same content is listed in both or in neither. */
  ghost predicate SameListing(old_: Tree, head: Tree, before: seq<FileChange>, now: seq<FileChange>) {
    forall p :: p in old_ && p in head && old_[p] == head[p] ==> (p in Names(before) <==> p in Names(now))
  }

  /** The files and invalidated paths of a delta plan. */
  function DeltaFiles(listed: seq<FileChange>, records: seq<DiffRecord>, gaps: seq<string>): seq<FileChange> {
    AddUncovered(ChangedFiles(listed, records), gaps, listed)
  }

  /** The planner picks the file: it was left uncovered, or some record finds it first. */
  ghost predicate Hit(listed: seq<FileChange>, records: seq<DiffRecord>, gaps: seq<string>, f: FileChange) {
    f in listed && (Uncovered(f, gaps) || Found(listed, records, f))
  }

  /** Every listed file whose content at the head is new is picked. */
  ghost predicate ChangedAreHit(old_: Tree, head: Tree, listed: seq<FileChange>, records: seq<DiffRecord>,
                                gaps: seq<string>) {
    forall f | f in listed && f.filename in head && !(f.filename in old_ && old_[f.filename] == head[f.filename]) ::
      Hit(listed, records, gaps, f)
  }

  /** A picked file that used to bear the name of a listed file present at the head has that file picked too. */
  ghost predicate NamesakesAreHit(head: Tree, listed: seq<FileChange>, records: seq<DiffRecord>, gaps: seq<string>) {
    forall f, g | Hit(listed, records, gaps, f) && g in listed && g.filename in head ::
      f.previousFilename == Some(g.filename) && g.filename != "" ==> Hit(listed, records, gaps, g)
  }

  /** A path whose content is unchanged, which is neither picked nor the former name of a picked file, is listed now
      exactly when the saved review covers it. */
  ghost predicate UnpickedAreCovered(old_: Tree, head: Tree, before: seq<FileChange>, listed: seq<FileChange>,
                                     records: seq<DiffRecord>, gaps: seq<string>) {
    forall p :: p in old_ && p in head && old_[p] == head[p] && p !in Names(DeltaFiles(listed, records, gaps))
                && !FormerName(listed, records, gaps, p) ==>
      (p in Names(listed) <==> p in Names(before) && p !in gaps)
  }

  ghost predicate FormerName(listed: seq<FileChange>, records: seq<DiffRecord>, gaps: seq<string>, p: string) {
    p != "" && exists f :: f in DeltaFiles(listed, records, gaps) && f.previousFilename == Some(p)
  }

  lemma DeltaFilesNames(listed: seq<FileChange>, records: seq<DiffRecord>, gaps: seq<string>)
    ensures var files := DeltaFiles(listed, records, gaps);
      DistinctNames(files) && (forall f | f in files :: Hit(listed, records, gaps, f)) && Names(files) <= Names(listed)
    ensures forall f | Hit(listed, records, gaps, f) :: f.filename in Names(DeltaFiles(listed, records, gaps))
  {
    hide ChangedFiles, AddUncovered, Uncovered;
    ChangedFilesNames(listed, records);
    AddUncoveredNames(ChangedFiles(listed, records), gaps, listed);
  }

  lemma HitByName(listed: seq<FileChange>, records: seq<DiffRecord>, gaps: seq<string>, f: FileChange)
    requires DistinctNames(listed) && f in listed
    ensures f.filename in Names(DeltaFiles(listed, records, gaps)) <==> Hit(listed, records, gaps, f)
  {
    hide DeltaFiles, Hit;
    DeltaFilesNames(listed, records, gaps);
    if f.filename in Names(DeltaFiles(listed, records, gaps)) {
      var g :| g in DeltaFiles(listed, records, gaps) && g.filename == f.filename;
      HitIsListed(listed, records, gaps, g);
    }
  }

  lemma HitIsListed(listed: seq<FileChange>, records: seq<DiffRecord>, gaps: seq<string>, f: FileChange)
    requires Hit(listed, records, gaps, f)
    ensures f in listed
  {
  }

  /** A listed file is picked if and only if it, or the file it was renamed from, is a gap of the saved review, or it is
      the first listed file that bears a record's name, or that was renamed from where the record's file was. */
  lemma HitIff(listed: seq<FileChange>, records: seq<DiffRecord>, gaps: seq<string>, f: FileChange)
    requires DistinctNames(listed) && f in listed
    ensures f in DeltaFiles(listed, records, gaps) <==>
      || f.filename in gaps || (f.previousFilename.Some? && f.previousFilename.value in gaps)
      || exists d, i: nat :: d in records && i < |listed| && listed[i] == f && Answers(f, d)
                             && forall j :: 0 <= j < i ==> !Answers(listed[j], d)
  {
    hide DeltaFiles, Hit, Answers, FirstMatch, Found;
    HitByName(listed, records, gaps, f);
    if Hit(listed, records, gaps, f) {
      HitInFiles(listed, records, gaps, f);
    }
    HitMeans(listed, records, gaps, f);
    FoundIff(listed, records, f);
  }

  predicate Answers(f: FileChange, d: DiffRecord) {
    || f.filename == d.filename
    || (d.previous.Some? && f.previousFilename.Some? && f.previousFilename.value == d.previous.value)
  }

  lemma HitMeans(listed: seq<FileChange>, records: seq<DiffRecord>, gaps: seq<string>, f: FileChange)
    ensures Hit(listed, records, gaps, f) <==>
      f in listed && (f.filename in gaps || (f.previousFilename.Some? && f.previousFilename.value in gaps)
                      || Found(listed, records, f))
  {
  }

  lemma FoundIff(listed: seq<FileChange>, records: seq<DiffRecord>, f: FileChange)
    ensures Found(listed, records, f) <==>
      exists d, i: nat :: d in records && i < |listed| && listed[i] == f && Answers(f, d)
                          && forall j :: 0 <= j < i ==> !Answers(listed[j], d)
  {
    hide FirstMatch, Answers;
    if Found(listed, records, f) {
      var d :| d in records && FirstMatch(listed, d) == Some(f);
      var i := MatchPlace(listed, d, f);
    }
    if d, i: nat :| d in records && i < |listed| && listed[i] == f && Answers(f, d)
                    && forall j :: 0 <= j < i ==> !Answers(listed[j], d) {
      MatchAt(listed, d, i);
    }
  }

  lemma {:induction false} MatchPlace(listed: seq<FileChange>, d: DiffRecord, f: FileChange) returns (i: nat)
    requires FirstMatch(listed, d) == Some(f)
    ensures i < |listed| && listed[i] == f && Answers(f, d) && forall j :: 0 <= j < i ==> !Answers(listed[j], d)
  {
    if Matches(listed[0], d) {
      i := 0;
    } else {
      var k := MatchPlace(listed[1..], d, f);
      i := k + 1;
      assert forall j :: 0 < j < i ==> listed[j] == listed[1..][j - 1];
    }
  }

  lemma {:induction false} MatchAt(listed: seq<FileChange>, d: DiffRecord, i: nat)
    requires i < |listed| && Answers(listed[i], d) && forall j :: 0 <= j < i ==> !Answers(listed[j], d)
    ensures FirstMatch(listed, d) == Some(listed[i])
  {
    if i > 0 {
      MatchAt(listed[1..], d, i - 1);
    }
  }

  /** A path no record names has the same content in both trees, or is in neither. */
  lemma Unnamed(old_: Tree, head: Tree, records: seq<DiffRecord>, p: string)
    requires CorrectDiff(records, old_, head)
    ensures p !in InvalidatedPaths(records) <==>
      (p in old_ <==> p in head) && (p in old_ ==> old_[p] == head[p])
  {
    hide InvalidatedPaths;
    InvalidatedAreRecordPaths(records, p);
  }

  /** What the planner's delta drops, of the paths it does not review and whose content is unchanged: the
      former names of the files it picks. */
  lemma DroppedUnchanged(old_: Tree, head: Tree, listed: seq<FileChange>, records: seq<DiffRecord>, gaps: seq<string>,
                         p: string)
    requires CorrectDiff(records, old_, head) && p !in InvalidatedPaths(records)
    requires p !in Names(DeltaFiles(listed, records, gaps))
    ensures p in DroppedPaths(DeltaFiles(listed, records, gaps), InvalidatedPaths(records)) <==>
      FormerName(listed, records, gaps, p)
  {
    hide DeltaFiles, InvalidatedPaths, CorrectDiff;
  }

  /** With a correct diff, the planner's delta is faithful exactly when it picks every changed file, and every
      listed namesake of a picked file, and what it leaves out is listed exactly when it is covered. */
  lemma PlanIsFaithfulIff(old_: Tree, head: Tree, before: seq<FileChange>, listed: seq<FileChange>,
                          records: seq<DiffRecord>, gaps: seq<string>)
    requires CorrectDiff(records, old_, head) && DistinctNames(listed)
    ensures Faithful(old_, head, Names(before) - NameSet(gaps), DeltaFiles(listed, records, gaps),
                     InvalidatedPaths(records), listed)
       <==> && ChangedAreHit(old_, head, listed, records, gaps) && NamesakesAreHit(head, listed, records, gaps)
            && UnpickedAreCovered(old_, head, before, listed, records, gaps)
  {
    hide CorrectDiff, DeltaFiles, InvalidatedPaths, DroppedPaths, Hit, DistinctNames, UnpickedAreCovered;
    var covered, files, invalidated :=
      Names(before) - NameSet(gaps), DeltaFiles(listed, records, gaps), InvalidatedPaths(records);
    if Faithful(old_, head, covered, files, invalidated, listed) {
      FaithfulHits(old_, head, before, listed, records, gaps);
      FaithfulCovers(old_, head, before, listed, records, gaps);
    } else if && ChangedAreHit(old_, head, listed, records, gaps) && NamesakesAreHit(head, listed, records, gaps)
              && UnpickedAreCovered(old_, head, before, listed, records, gaps)
    {
      HitsAreFaithful(old_, head, before, listed, records, gaps);
    }
  }

  lemma FaithfulHits(old_: Tree, head: Tree, before: seq<FileChange>, listed: seq<FileChange>,
                     records: seq<DiffRecord>, gaps: seq<string>)
    requires CorrectDiff(records, old_, head) && DistinctNames(listed)
    requires Faithful(old_, head, Names(before) - NameSet(gaps), DeltaFiles(listed, records, gaps),
                      InvalidatedPaths(records), listed)
    ensures ChangedAreHit(old_, head, listed, records, gaps) && NamesakesAreHit(head, listed, records, gaps)
  {
    hide CorrectDiff, DeltaFiles, InvalidatedPaths, DroppedPaths, Hit, DistinctNames;
    var files := DeltaFiles(listed, records, gaps);
    forall f | f in listed && f.filename in head && !(f.filename in old_ && old_[f.filename] == head[f.filename])
      ensures Hit(listed, records, gaps, f)
    {
      HitByName(listed, records, gaps, f);
    }
    forall f, g | Hit(listed, records, gaps, f) && g in listed && g.filename in head
      ensures f.previousFilename == Some(g.filename) && g.filename != "" ==> Hit(listed, records, gaps, g)
    {
      HitByName(listed, records, gaps, g);
      if f.previousFilename == Some(g.filename) && g.filename != "" && g.filename !in Names(files) {
        Unnamed(old_, head, records, g.filename);
        HitInFiles(listed, records, gaps, f);
        DroppedUnchanged(old_, head, listed, records, gaps, g.filename);
        assert false;
      }
    }
  }

  lemma FaithfulCovers(old_: Tree, head: Tree, before: seq<FileChange>, listed: seq<FileChange>,
                       records: seq<DiffRecord>, gaps: seq<string>)
    requires CorrectDiff(records, old_, head)
    requires Faithful(old_, head, Names(before) - NameSet(gaps), DeltaFiles(listed, records, gaps),
                      InvalidatedPaths(records), listed)
    ensures UnpickedAreCovered(old_, head, before, listed, records, gaps)
  {
    hide CorrectDiff, DeltaFiles, InvalidatedPaths, DroppedPaths, Names, FormerName;
    forall p | p in old_ && p in head && old_[p] == head[p] && p !in Names(DeltaFiles(listed, records, gaps))
               && !FormerName(listed, records, gaps, p)
      ensures p in Names(listed) <==> p in Names(before) && p !in gaps
    {
      Unnamed(old_, head, records, p);
      DroppedUnchanged(old_, head, listed, records, gaps, p);
    }
  }

  lemma HitInFiles(listed: seq<FileChange>, records: seq<DiffRecord>, gaps: seq<string>, f: FileChange)
    requires DistinctNames(listed) && Hit(listed, records, gaps, f)
    ensures f in DeltaFiles(listed, records, gaps)
  {
    hide DeltaFiles, Hit;
    DeltaFilesNames(listed, records, gaps);
    HitIsListed(listed, records, gaps, f);
    var g :| g in DeltaFiles(listed, records, gaps) && g.filename == f.filename;
    HitIsListed(listed, records, gaps, g);
  }

  lemma HitsAreFaithful(old_: Tree, head: Tree, before: seq<FileChange>, listed: seq<FileChange>,
                        records: seq<DiffRecord>, gaps: seq<string>)
    requires CorrectDiff(records, old_, head) && DistinctNames(listed)
    requires ChangedAreHit(old_, head, listed, records, gaps) && NamesakesAreHit(head, listed, records, gaps)
    requires UnpickedAreCovered(old_, head, before, listed, records, gaps)
    ensures Faithful(old_, head, Names(before) - NameSet(gaps), DeltaFiles(listed, records, gaps),
                     InvalidatedPaths(records), listed)
  {
    hide CorrectDiff, DeltaFiles, InvalidatedPaths, DroppedPaths, Hit, DistinctNames, Names, FormerName;
    var files, invalidated := DeltaFiles(listed, records, gaps), InvalidatedPaths(records);
    forall p | p !in Names(files)
      ensures ((p in Names(before) - NameSet(gaps) && p in old_ && p !in DroppedPaths(files, invalidated))
               <==> (p in Names(listed) && p in head))
      ensures p in Names(listed) && p in head ==> p in old_ && old_[p] == head[p]
    {
      Unnamed(old_, head, records, p);
      InvalidatedAreDropped(files, invalidated, p);
      if p in Names(listed) && p in head {
        ListedIsUnchanged(old_, head, listed, records, gaps, p);
      }
      if p !in invalidated {
        DroppedUnchanged(old_, head, listed, records, gaps, p);
      }
    }
  }

  /** A listed path present at the head that is not picked has its old content, and is no picked file's former name. */
  lemma ListedIsUnchanged(old_: Tree, head: Tree, listed: seq<FileChange>, records: seq<DiffRecord>, gaps: seq<string>,
                          p: string)
    requires DistinctNames(listed) && p in Names(listed) && p in head && p !in Names(DeltaFiles(listed, records, gaps))
    requires ChangedAreHit(old_, head, listed, records, gaps) && NamesakesAreHit(head, listed, records, gaps)
    ensures p in old_ && old_[p] == head[p] && !FormerName(listed, records, gaps, p)
  {
    hide DeltaFiles, Hit, DistinctNames;
    var g :| g in listed && g.filename == p;
    NotHit(listed, records, gaps, g);
    DeltaFilesNames(listed, records, gaps);
  }

  /** Listings that agree on unchanged paths meet the third condition. */
  lemma SameListingCovers(old_: Tree, head: Tree, before: seq<FileChange>, listed: seq<FileChange>,
                          records: seq<DiffRecord>, gaps: seq<string>)
    requires DistinctNames(listed) && SameListing(old_, head, before, listed)
    ensures UnpickedAreCovered(old_, head, before, listed, records, gaps)
  {
    hide DeltaFiles, DistinctNames, FormerName;
    forall p | p in Names(listed) && p !in Names(DeltaFiles(listed, records, gaps)) ensures p !in gaps {
      var g :| g in listed && g.filename == p;
      NotHit(listed, records, gaps, g);
    }
  }

  /** And so do listings of two heads against one base tree: they agree on unchanged paths. */
  lemma OneBaseSameListing(base: Tree, old_: Tree, head: Tree, before: seq<FileChange>, listed: seq<FileChange>)
    requires ListsChanges(base, old_, before) && ListsChanges(base, head, listed)
    ensures SameListing(old_, head, before, listed)
  {
  }

  lemma NotHit(listed: seq<FileChange>, records: seq<DiffRecord>, gaps: seq<string>, g: FileChange)
    requires DistinctNames(listed) && g in listed && g.filename !in Names(DeltaFiles(listed, records, gaps))
    ensures !Hit(listed, records, gaps, g) && g.filename !in gaps
  {
    hide DeltaFiles, DistinctNames;
    HitByName(listed, records, gaps, g);
  }

  lemma InvalidatedAreDropped(files: seq<FileChange>, invalidated: seq<string>, p: string)
    ensures p in invalidated ==> p in DroppedPaths(files, invalidated)
  {
  }

  /** Simpler conditions that suffice: one listed file at most answers to each record, and no listed file bears
      the name another one had before. */
  lemma SimpleListingIsHit(old_: Tree, head: Tree, listed: seq<FileChange>, records: seq<DiffRecord>, gaps: seq<string>)
    requires CorrectDiff(records, old_, head)
    requires forall d, f, g :: d in records && f in listed && g in listed && Matches(f, d) && Matches(g, d) ==> f == g
    requires forall f, g :: f in listed && g in listed ==> f.previousFilename != Some(g.filename)
    ensures ChangedAreHit(old_, head, listed, records, gaps) && NamesakesAreHit(head, listed, records, gaps)
  {
    forall f | f in listed && f.filename in head && !(f.filename in old_ && old_[f.filename] == head[f.filename])
      ensures Hit(listed, records, gaps, f)
    {
      var d :| d in records && (d.filename == f.filename || d.previous == Some(f.filename));
      assert Matches(f, d);
      FirstMatchFound(listed, d);
    }
  }

  // ---- the conditions on the listing are needed ----

  /** Two listed files answer to one rename record: the first is taken, the renamed file is not picked, and the
      delta goes wrong. */
  lemma AmbiguousRenameSkipsFile(a: string, b: string, c: string, x: string, y: string)
    requires a != b && b != c && a != c && Plain(a) && Plain(b)
    ensures var listed, before := [FileChange(c, Some(a)), FileChange(b, None)], [FileChange(c, Some(a))];
      var records := [DiffRecord("R100", Some(a), b)];
      var old_, head := map[a := x, c := y], map[b := x, c := y];
      && CorrectDiff(records, old_, head) && SameListing(old_, head, before, listed)
      && !Faithful(old_, head, Names(before), DeltaFiles(listed, records, []), InvalidatedPaths(records), listed)
  {
    hide Faithful, Names, UnpickedAreCovered;
    var listed, before := [FileChange(c, Some(a)), FileChange(b, None)], [FileChange(c, Some(a))];
    var record := DiffRecord("R100", Some(a), b);
    var old_, head := map[a := x, c := y], map[b := x, c := y];
    TwoNames(listed);
    TwoNames(before);
    assert record in [record] && forall d :: d in [record] <==> d == record;
    assert FirstMatch(listed, record) == Some(listed[0]);
    assert listed[1] in listed && !Hit(listed, [record], [], listed[1]);
    PlanIsFaithfulIff(old_, head, before, listed, [record], []);
    assert Names(before) - NameSet([]) == Names(before);
  }

  lemma NothingPicked(f: FileChange)
    ensures DeltaFiles([f], [], []) == []
  {
    assert [f][..0] == [] && !Uncovered(f, []);
    assert AddUncovered([], [], [f][..0]) == [];
  }

  lemma TwoNames(files: seq<FileChange>)
    requires |files| <= 2
    ensures forall p :: p in Names(files) <==> exists i :: 0 <= i < |files| && files[i].filename == p
  {
  }

  /** An unchanged file is listed now and was not before, because the listing's base tree has moved: it is not picked,
      nobody has reviewed it, and the delta goes wrong. */
  lemma NewlyListedIsSkipped(a: string, x: string, y: string)
    requires x != y
    ensures var listed := [FileChange(a, None)];
      var tree, base := map[a := x], map[a := y];
      && CorrectDiff([], tree, tree) && ListsChanges(tree, tree, []) && ListsChanges(base, tree, listed)
      && !Faithful(tree, tree, Names([]), DeltaFiles(listed, [], []), InvalidatedPaths([]), listed)
  {
    hide Faithful, Names;
    var listed := [FileChange(a, None)];
    var tree := map[a := x];
    TwoNames(listed);
    TwoNames([]);
    NothingPicked(listed[0]);
    assert a in tree && a !in Names([]) && a in Names(listed) && a !in Names(DeltaFiles(listed, [], []));
    assert !UnpickedAreCovered(tree, tree, [], listed, [], []);
    PlanIsFaithfulIff(tree, tree, [], listed, [], []);
    assert Names([]) - NameSet([]) == Names([]);
  }

  /** A changed file used to bear the name of an unchanged listed file: the latter's findings are dropped
      although it is not picked, and the delta goes wrong. */
  lemma ReusedNameDropsFindings(a: string, b: string, x: string, y: string, z: string)
    requires a != b && Plain(a) && Plain(b) && y != z
    ensures var listed := [FileChange(b, Some(a)), FileChange(a, None)];
      var records := [DiffRecord("M", None, b)];
      var old_, head := map[a := x, b := y], map[a := x, b := z];
      && CorrectDiff(records, old_, head) && SameListing(old_, head, listed, listed)
      && !Faithful(old_, head, Names(listed), DeltaFiles(listed, records, []), InvalidatedPaths(records), listed)
  {
    hide Faithful, Names;
    var listed := [FileChange(b, Some(a)), FileChange(a, None)];
    var record := DiffRecord("M", None, b);
    var old_, head := map[a := x, b := y], map[a := x, b := z];
    assert record in [record] && forall d :: d in [record] <==> d == record;
    assert FirstMatch(listed, record) == Some(listed[0]);
    assert listed[0] in listed && listed[1] in listed;
    assert Hit(listed, [record], [], listed[0]) && !Hit(listed, [record], [], listed[1]);
    PlanIsFaithfulIff(old_, head, listed, listed, [record], []);
    assert Names(listed) - NameSet([]) == Names(listed);
  }
}
