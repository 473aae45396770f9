/** The lookup against the new files that a unified diff was rendered from. */
module DiffLinesLaws {
  import opened Options
  import opened Decimal
  import opened DiffLines

  // ---- rendering ----

  /** A line of a hunk; a note is any other line that may stand among them, such as the one that tells of a missing
      newline at the end, or an empty line between two sections. */
  datatype DiffLine = Context(text: string) | Add(text: string) | Remove(text: string) | Note(text: string)

  datatype Hunk = Hunk(oldStart: nat, oldCount: nat, newStart: nat, newCount: nat, heading: string,
                       lines: seq<DiffLine>)

  /** One file's section, as it is printed: the names after `diff --git`, the labels after `---` and `+++`, if there are
      any, and the lines around them. The two names are bare or in quotes. `newPath` is the file it is about. */
  datatype FileDiff = FileDiff(newPath: string, names: string, headers: seq<string>, labelled: bool, oldLabel: string,
                               newLabel: string, notes: seq<string>, hunks: seq<Hunk>)

  function RenderLine(l: DiffLine): string {
    match l
    case Context(text) => " " + text
    case Add(text) => "+" + text
    case Remove(text) => "-" + text
    case Note(text) => text
  }

  /** A count of one is left out. */
  function RenderRange(start: nat, count: nat): string {
    Numeral(start) + (if count == 1 then "" else "," + Numeral(count))
  }

  function HunkHeader(h: Hunk): string {
    "@@ -" + (RenderRange(h.oldStart, h.oldCount)
              + (" +" + (RenderRange(h.newStart, h.newCount) + (" @@" + h.heading))))
  }

  function RenderLines(ls: seq<DiffLine>): seq<string> {
    if ls == [] then [] else [RenderLine(ls[0])] + RenderLines(ls[1..])
  }

  function RenderHunks(hs: seq<Hunk>): seq<string> {
    if hs == [] then [] else [HunkHeader(hs[0])] + (RenderLines(hs[0].lines) + RenderHunks(hs[1..]))
  }

  /** The label git prints for a name that needs no quotes. */
  function GitLabel(path: string): string {
    "b/" + (if ' ' in path then path + "\t" else path)
  }

  function GitLine(d: FileDiff): string { "diff --git " + d.names }

  function NewLine(d: FileDiff): string { "+++ " + d.newLabel }

  function RenderFile(d: FileDiff): seq<string> {
    [GitLine(d)]
    + (d.headers
       + ((if d.labelled then ["--- " + d.oldLabel, NewLine(d)] else [])
          + (d.notes + RenderHunks(d.hunks))))
  }

  function RenderFiles(ds: seq<FileDiff>): seq<string> {
    if ds == [] then [] else RenderFile(ds[0]) + RenderFiles(ds[1..])
  }

  function JoinLines(lines: seq<string>): string {
    if lines == [] then "" else lines[0] + ("\n" + JoinLines(lines[1..]))
  }

  /** The diff as one text. */
  function RenderDiff(ds: seq<FileDiff>): string {
    JoinLines(RenderFiles(ds))
  }

  // ---- what the diff says of the new files ----

  /** The new side of a hunk. */
  function NewSide(ls: seq<DiffLine>): seq<string> {
    if ls == [] then []
    else (if ls[0].Context? || ls[0].Add? then [ls[0].text] else []) + NewSide(ls[1..])
  }

  /** What the scan counts: an added line beginning with two plus signs looks like a file header. */
  predicate Counts(l: DiffLine) {
    l.Context? || (l.Add? && !("++" <= l.text))
  }

  /** An added line that reads like the header of a new file renames the section for the lines after it. */
  function Renamed(name: Option<string>, l: DiffLine): Option<string> {
    if l.Add? && NewTarget("+" + l.text).Some? then NewTarget("+" + l.text) else name
  }

  function NameAfter(name: Option<string>, ls: seq<DiffLine>): Option<string>
    decreases |ls|
  {
    if ls == [] then name else NameAfter(Renamed(name, ls[0]), ls[1..])
  }

  /** The lines the scan counts for a file, in a hunk that begins under a name. */
  function CountedSide(name: Option<string>, file: string, ls: seq<DiffLine>): seq<string>
    decreases |ls|
  {
    if ls == [] then []
    else
      (if name == Some(file) && Counts(ls[0]) then [ls[0].text] else [])
      + CountedSide(Renamed(name, ls[0]), file, ls[1..])
  }

  function HunkLookup(h: Hunk, line: nat, side: seq<string>): Option<string> {
    if h.newStart <= line < h.newStart + |side| then Some(side[line - h.newStart]) else None
  }

  function CountedLookup(name: Option<string>, file: string, hs: seq<Hunk>, line: nat): Option<string>
    decreases |hs|
  {
    if hs == [] then None
    else
      var here := HunkLookup(hs[0], line, CountedSide(name, file, hs[0].lines));
      if here.Some? then here else CountedLookup(NameAfter(name, hs[0].lines), file, hs[1..], line)
  }

  function NamesAfter(name: Option<string>, hs: seq<Hunk>): Option<string>
    decreases |hs|
  {
    if hs == [] then name else NamesAfter(NameAfter(name, hs[0].lines), hs[1..])
  }

  /** The name in force when the hunks of a section begin: that of its new label, else the one read from the names after
      `diff --git`, else the one that was in force before. */
  function Begun(name: Option<string>, d: FileDiff): Option<string> {
    var git := GitTarget(GitLine(d));
    var printed := if d.labelled then NewTarget(NewLine(d)) else None;
    if printed.Some? then printed else if git.Some? then git else name
  }

  function SectionLookup(name: Option<string>, d: FileDiff, file: string, line: nat): Option<string> {
    CountedLookup(Begun(name, d), file, d.hunks, line)
  }

  /** The name a section leaves in force. */
  function Left(name: Option<string>, d: FileDiff): Option<string> {
    NamesAfter(Begun(name, d), d.hunks)
  }

  /** The name in force before section k. */
  function NameAt(ds: seq<FileDiff>, k: nat): Option<string>
    requires k <= |ds|
  {
    if k == 0 then None else Left(NameAt(ds, k - 1), ds[k - 1])
  }

  /** What the sections from the k-th on count for a file, the first one of them to do so. */
  function LookupFrom(ds: seq<FileDiff>, k: nat, file: string, line: nat): Option<string>
    requires k <= |ds|
    decreases |ds| - k
  {
    if k == |ds| then None
    else
      var here := SectionLookup(NameAt(ds, k), ds[k], file, line);
      if here.Some? then here else LookupFrom(ds, k + 1, file, line)
  }

  /** And what the sections before the k-th count. */
  function LookupBefore(ds: seq<FileDiff>, k: nat, file: string, line: nat): Option<string>
    requires k <= |ds|
  {
    if k == 0 then None
    else
      var before := LookupBefore(ds, k - 1, file, line);
      if before.Some? then before else SectionLookup(NameAt(ds, k - 1), ds[k - 1], file, line)
  }

  // ---- well-formed diffs ----

  predicate OneLine(s: string) {
    '\n' !in s
  }

  predicate PlainHeader(s: string) {
    OneLine(s) && GitTarget(s).None? && NewTarget(s).None? && HunkTarget(s).None?
  }

  /** Not a line of a hunk. */
  predicate Neutral(s: string) {
    s == "" || s[0] !in {' ', '+', '-'}
  }

  predicate LineOk(l: DiffLine) {
    OneLine(l.text) && (l.Note? ==> PlainHeader(l.text) && Neutral(l.text))
  }

  ghost predicate HunkOk(h: Hunk) {
    OneLine(h.heading) && forall l | l in h.lines :: LineOk(l)
  }

  /** Whatever the names and labels are. Where no name is read from the first line, none of the lines up to the first
      hunk may look like one of the hunk before. */
  ghost predicate FileOk(d: FileDiff) {
    && OneLine(d.names) && OneLine(d.oldLabel) && OneLine(d.newLabel)
    && (forall s | s in d.headers + d.notes :: PlainHeader(s) && (GitTarget(GitLine(d)).Some? || Neutral(s)))
    && (forall h | h in d.hunks :: HunkOk(h))
  }

  // ---- single lines ----

  lemma HeaderScan(file: string, line: nat, s: Scan, headers: seq<string>)
    requires s.Scan? && forall h | h in headers :: PlainHeader(h) && (s.newLine.None? || Neutral(h))
    ensures ScanLines(file, line, s, headers) == s
    decreases |headers|
  {
    hide GitTarget, NewTarget, HunkTarget;
    if headers != [] {
      assert PlainHeader(headers[0]);
      HeaderScan(file, line, s, headers[1..]);
    }
  }

  lemma {:induction false} ScanConcat(file: string, line: nat, s: Scan, a: seq<string>, b: seq<string>)
    ensures ScanLines(file, line, s, a + b) == ScanLines(file, line, ScanLines(file, line, s, a), b)
    decreases |a|
  {
    hide Step;
    if a == [] {
      assert a + b == b;
    } else {
      ScanConcat(file, line, Step(file, line, s, a[0]), a[1..], b);
      assert (a + b)[1..] == a[1..] + b;
    }
  }

  /** The first line of a section sets the name, or else nothing. */
  lemma GitLineStep(file: string, line: nat, s: Scan, d: FileDiff)
    requires s.Scan?
    ensures var git := GitTarget(GitLine(d));
      Step(file, line, s, GitLine(d)) == if git.Some? then Scan(git, None) else s
  {
    var raw := GitLine(d);
    assert raw[0] == 'd' && NEW_PREFIX[0] == '+' && "@@ -"[0] == '@' && "---"[0] == '-';
    assert NewTarget(raw).None? && HunkTarget(raw).None?;
  }

  /** The new label sets the name, or else nothing. */
  lemma NewLineStep(file: string, line: nat, s: Scan, d: FileDiff)
    requires s.Scan?
    ensures var printed := NewTarget(NewLine(d));
      Step(file, line, s, NewLine(d)) == if printed.Some? then s.(file := printed) else s
  {
    var raw := NewLine(d);
    assert raw[..3] == "+++";
    BodyLine(raw);
  }

  lemma OldLineStep(file: string, line: nat, s: Scan, oldLabel: string)
    requires s.Scan?
    ensures Step(file, line, s, "--- " + oldLabel) == s
  {
    var raw := "--- " + oldLabel;
    assert raw[..3] == "---";
    BodyLine(raw);
  }

  lemma NewLabel(name: string)
    requires Dots(name)
    ensures NewTarget(NEW_PREFIX + name) == Some(name) && GitTarget(NEW_PREFIX + name).None?
  {
    var line := NEW_PREFIX + name;
    assert line[|NEW_PREFIX|..] == name;
    assert line[0] == '+' && GIT_PREFIX[0] == 'd';
  }

  /** A line that starts with one of the body's marks is no header. */
  lemma BodyLine(raw: string)
    requires raw != "" && raw[0] in {' ', '-', '+'}
    ensures GitTarget(raw).None? && HunkTarget(raw).None?
    ensures raw[0] != '+' ==> NewTarget(raw).None?
  {
    assert GIT_PREFIX[0] == 'd' && "@@ -"[0] == '@' && NEW_PREFIX[0] == '+';
  }

  lemma RangeRead(start: nat, count: nat, rest: string)
    requires rest != "" && !IsDigit(rest[0]) && rest[0] != ','
    ensures Range(RenderRange(start, count) + rest) == Some((start, rest))
  {
    NumeralValue(start);
    if count == 1 {
      assert RenderRange(start, count) + rest == Numeral(start) + rest;
      DigitsThen(Numeral(start), rest);
      assert (Numeral(start) + rest)[..|Numeral(start)|] == Numeral(start);
      assert (Numeral(start) + rest)[|Numeral(start)|..] == rest;
    } else {
      NumeralValue(count);
      var tail := "," + (Numeral(count) + rest);
      assert RenderRange(start, count) + rest == Numeral(start) + tail;
      DigitsThen(Numeral(start), tail);
      DigitsThen(Numeral(count), rest);
      assert (Numeral(start) + tail)[..|Numeral(start)|] == Numeral(start);
      assert (Numeral(start) + tail)[|Numeral(start)|..] == tail;
      assert tail[1..] == Numeral(count) + rest;
      assert tail[1 + |Numeral(count)|..] == rest;
    }
  }

  lemma HunkLine(h: Hunk)
    ensures HunkTarget(HunkHeader(h)) == Some(h.newStart)
    ensures GitTarget(HunkHeader(h)).None? && NewTarget(HunkHeader(h)).None?
  {
    hide Range, RenderRange;
    var tail := " @@" + h.heading;
    var middle := " +" + (RenderRange(h.newStart, h.newCount) + tail);
    RangeRead(h.oldStart, h.oldCount, middle);
    RangeRead(h.newStart, h.newCount, tail);
    var line := HunkHeader(h);
    assert line[4..] == RenderRange(h.oldStart, h.oldCount) + middle;
    assert middle[2..] == RenderRange(h.newStart, h.newCount) + tail;
    assert line[0] == '@' && GIT_PREFIX[0] == 'd' && NEW_PREFIX[0] == '+';
  }

  // ---- hunks ----

  lemma LineStep(file: string, line: nat, s: Scan, l: DiffLine)
    requires s.Scan? && s.newLine.Some? && LineOk(l)
    ensures Step(file, line, s, RenderLine(l)) ==
      if s.file == Some(file) && Counts(l) then
        (if s.newLine.value == line then Found(l.text) else s.(newLine := Some(s.newLine.value + 1)))
      else s.(file := Renamed(s.file, l))
    ensures Counts(l) ==> Renamed(s.file, l) == s.file
  {
    var raw := RenderLine(l);
    if !l.Note? {
      assert raw[0] in {' ', '-', '+'};
      BodyLine(raw);
      assert raw[1..] == l.text;
      assert "+++" <= raw <==> l.Add? && "++" <= l.text by {
        assert |raw| >= 3 ==> raw[1..3] == l.text[..2];
        if l.Add? && "++" <= l.text {
          assert raw[..3] == "+++";
        }
      }
      if Counts(l) && l.Add? {
        PlainAdd(l.text);
      }
    }
  }

  lemma HunkScan(file: string, line: nat, s: Scan, ls: seq<DiffLine>)
    requires s.Scan? && s.newLine.Some? && forall l | l in ls :: LineOk(l)
    ensures var side, n := CountedSide(s.file, file, ls), s.newLine.value;
      ScanLines(file, line, s, RenderLines(ls)) ==
      if n <= line < n + |side| then Found(side[line - n]) else Scan(NameAfter(s.file, ls), Some(n + |side|))
    decreases |ls|
  {
    hide Step, LineOk, Counts, Renamed;
    if ls != [] {
      LineStep(file, line, s, ls[0]);
      var after := Step(file, line, s, RenderLine(ls[0]));
      if after.Found? {
        FoundStays(file, line, ls[0].text, RenderLines(ls[1..]));
      } else {
        HunkScan(file, line, after, ls[1..]);
      }
    }
  }

  lemma HunksScan(file: string, line: nat, s: Scan, hs: seq<Hunk>)
    requires s.Scan? && forall h | h in hs :: HunkOk(h)
    ensures var r := ScanLines(file, line, s, RenderHunks(hs));
      var found := CountedLookup(s.file, file, hs, line);
      if found.Some? then r == Found(found.value) else r.Scan? && r.file == NamesAfter(s.file, hs)
    decreases |hs|
  {
    hide CountedSide, NameAfter, HunkHeader, RenderLines, GitTarget, NewTarget, HunkTarget, LineOk;
    if hs != [] {
      var h := hs[0];
      assert HunkOk(h);
      HunkLine(h);
      var body, tail := RenderLines(h.lines), RenderHunks(hs[1..]);
      var started := s.(newLine := Some(h.newStart));
      assert Step(file, line, s, HunkHeader(h)) == started;
      assert ([HunkHeader(h)] + (body + tail))[1..] == body + tail;
      ScanConcat(file, line, started, body, tail);
      HunkScan(file, line, started, h.lines);
      var side := CountedSide(s.file, file, h.lines);
      if h.newStart <= line < h.newStart + |side| {
        FoundStays(file, line, side[line - h.newStart], tail);
      } else {
        HunksScan(file, line, Scan(NameAfter(s.file, h.lines), Some(h.newStart + |side|)), hs[1..]);
      }
    }
  }

  // ---- sections ----

  lemma SectionScan(file: string, line: nat, s: Scan, d: FileDiff)
    requires s.Scan? && FileOk(d)
    ensures var r := ScanLines(file, line, s, RenderFile(d));
      var found := SectionLookup(s.file, d, file, line);
      if found.Some? then r == Found(found.value) else r.Scan? && r.file == Left(s.file, d)
  {
    hide GitTarget, NewTarget, HunkTarget, RenderHunks, CountedLookup, NamesAfter, HunkOk, PlainHeader, Neutral, Step,
      GitLine, NewLine;
    var git := GitTarget(GitLine(d));
    var began := if git.Some? then Scan(git, None) else s;
    GitLineStep(file, line, s, d);
    forall h | h in d.headers || h in d.notes ensures PlainHeader(h) && (git.Some? || Neutral(h)) {
      assert h in d.headers + d.notes;
    }
    var hunks := RenderHunks(d.hunks);
    var labels := if d.labelled then ["--- " + d.oldLabel, NewLine(d)] else [];
    assert RenderFile(d)[0] == GitLine(d) && RenderFile(d)[1..] == d.headers + (labels + (d.notes + hunks));
    HeaderScan(file, line, began, d.headers);
    ScanConcat(file, line, began, d.headers, labels + (d.notes + hunks));
    var after := LabelsScan(file, line, began, d);
    ScanConcat(file, line, began, labels, d.notes + hunks);
    HeaderScan(file, line, after, d.notes);
    ScanConcat(file, line, after, d.notes, hunks);
    HunksScan(file, line, after, d.hunks);
  }

  lemma LabelsScan(file: string, line: nat, s: Scan, d: FileDiff) returns (after: Scan)
    requires s.Scan?
    ensures var labels := if d.labelled then ["--- " + d.oldLabel, NewLine(d)] else [];
      && after == ScanLines(file, line, s, labels) && after.Scan? && after.newLine == s.newLine
      && after.file == if d.labelled && NewTarget(NewLine(d)).Some? then NewTarget(NewLine(d)) else s.file
  {
    hide NewTarget, Step, NewLine;
    if d.labelled {
      var raws := ["--- " + d.oldLabel, NewLine(d)];
      OldLineStep(file, line, s, d.oldLabel);
      NewLineStep(file, line, s, d);
      after := Step(file, line, s, NewLine(d));
      assert raws[1..] == [NewLine(d)] && [NewLine(d)][1..] == [];
      assert ScanLines(file, line, s, [NewLine(d)]) == ScanLines(file, line, after, []);
    } else {
      after := s;
    }
  }

  lemma FilesScan(file: string, line: nat, s: Scan, ds: seq<FileDiff>, k: nat)
    requires s.Scan? && k <= |ds| && s.file == NameAt(ds, k) && forall d | d in ds :: FileOk(d)
    ensures FoundText(ScanLines(file, line, s, RenderFiles(ds[k..]))) == LookupFrom(ds, k, file, line)
    decreases |ds| - k
  {
    hide RenderFile, FileOk, SectionLookup, Left, Step;
    if k < |ds| {
      assert ds[k..][0] == ds[k] && ds[k..][1..] == ds[k + 1..];
      SectionScan(file, line, s, ds[k]);
      ScanConcat(file, line, s, RenderFile(ds[k]), RenderFiles(ds[k + 1..]));
      var r := ScanLines(file, line, s, RenderFile(ds[k]));
      if r.Found? {
        FoundStays(file, line, r.text, RenderFiles(ds[k + 1..]));
      } else {
        FilesScan(file, line, r, ds, k + 1);
      }
    }
  }

  // ---- the text ----

  lemma SplitNext(text: string)
    requires text != ""
    ensures SplitLines(text) ==
      var rest := SplitLines(text[1..]);
      if text[0] == '\n' then [""] + rest else [[text[0]] + rest[0]] + rest[1..]
  {
  }

  lemma {:induction false} SplitThen(s: string, rest: string)
    requires OneLine(s)
    ensures SplitLines(s + ("\n" + rest)) == [s] + SplitLines(rest)
  {
    hide SplitLines;
    SplitNext(s + ("\n" + rest));
    if s == "" {
      assert s + ("\n" + rest) == "\n" + rest;
      assert ("\n" + rest)[1..] == rest;
    } else {
      SplitThen(s[1..], rest);
      assert (s + ("\n" + rest))[1..] == s[1..] + ("\n" + rest);
      assert [s[0]] + s[1..] == s;
    }
  }

  lemma {:induction false} SplitJoined(lines: seq<string>)
    requires forall s | s in lines :: OneLine(s)
    ensures SplitLines(JoinLines(lines)) == lines + [""]
  {
    if lines != [] {
      SplitJoined(lines[1..]);
      SplitThen(lines[0], JoinLines(lines[1..]));
      assert lines == [lines[0]] + lines[1..];
    }
  }

  lemma DigitsAreOneLine(n: nat)
    ensures OneLine(Numeral(n))
  {
    NumeralValue(n);
    forall i | 0 <= i < |Numeral(n)| ensures Numeral(n)[i] != '\n' {
      assert IsDigit(Numeral(n)[i]);
    }
  }

  lemma RangeIsOneLine(start: nat, count: nat)
    ensures OneLine(RenderRange(start, count))
  {
    DigitsAreOneLine(start);
    DigitsAreOneLine(count);
  }

  lemma HunksAreOneLines(hs: seq<Hunk>)
    requires forall h | h in hs :: HunkOk(h)
    ensures forall s | s in RenderHunks(hs) :: OneLine(s)
  {
    hide LineOk, RenderRange, RenderLines;
    if hs != [] {
      assert HunkOk(hs[0]);
      LinesAreOneLines(hs[0].lines);
      HunksAreOneLines(hs[1..]);
      RangeIsOneLine(hs[0].oldStart, hs[0].oldCount);
      RangeIsOneLine(hs[0].newStart, hs[0].newCount);
    }
  }

  lemma LinesAreOneLines(ls: seq<DiffLine>)
    requires forall l | l in ls :: LineOk(l)
    ensures forall s | s in RenderLines(ls) :: OneLine(s)
  {
    if ls != [] {
      LinesAreOneLines(ls[1..]);
      assert LineOk(ls[0]);
      assert OneLine(RenderLine(ls[0]));
    }
  }

  lemma FilesAreOneLines(ds: seq<FileDiff>)
    requires forall d | d in ds :: FileOk(d)
    ensures forall s | s in RenderFiles(ds) :: OneLine(s)
  {
    hide FileOk, RenderFile;
    if ds != [] {
      assert FileOk(ds[0]);
      FilesAreOneLines(ds[1..]);
      FileIsOneLines(ds[0]);
    }
  }

  lemma FileIsOneLines(d: FileDiff)
    requires FileOk(d)
    ensures forall s | s in RenderFile(d) :: OneLine(s)
  {
    hide HunkOk, GitTarget, NewTarget, HunkTarget, RenderHunks, Neutral;
    HunksAreOneLines(d.hunks);
    forall s | s in d.headers || s in d.notes ensures OneLine(s) {
      assert s in d.headers + d.notes;
    }
  }

  lemma DotsAreOneLine(s: string)
    requires Dots(s)
    ensures OneLine(s)
  {
    forall i | 0 <= i < |s| ensures s[i] != '\n' {
      assert Dot(s[i]);
    }
  }

  /** On every rendered diff the lookup finds the line that is counted under the name. */
  lemma LookupIsCounted(ds: seq<FileDiff>, file: string, line: nat)
    requires forall d | d in ds :: FileOk(d)
    ensures NewFileLine(file, line, RenderDiff(ds)) == LookupFrom(ds, 0, file, line)
  {
    hide RenderFiles, FileOk, SplitLines, LookupFrom, Step;
    FilesAreOneLines(ds);
    SplitJoined(RenderFiles(ds));
    var start := Scan(None, None);
    ScanConcat(file, line, start, RenderFiles(ds), [""]);
    assert ds[0..] == ds;
    FilesScan(file, line, start, ds, 0);
    EmptyLast(file, line, ScanLines(file, line, start, RenderFiles(ds)));
  }

  lemma EmptyLast(file: string, line: nat, s: Scan)
    ensures FoundText(ScanLines(file, line, s, [""])) == FoundText(s)
  {
    assert [""][1..] == [];
    assert GitTarget("").None? && NewTarget("").None? && HunkTarget("").None?;
  }

  // ---- against the new file ----

  /** The hunk shows a stretch of the new file. */
  ghost predicate Shows(h: Hunk, content: seq<string>) {
    var side := NewSide(h.lines);
    side != [] ==> 1 <= h.newStart && h.newStart - 1 + |side| <= |content|
                   && forall i :: 0 <= i < |side| ==> side[i] == content[h.newStart - 1 + i]
  }

  predicate Covers(h: Hunk, line: nat) {
    h.newStart <= line < h.newStart + |NewSide(h.lines)|
  }

  ghost predicate NoDoublePlus(h: Hunk) {
    forall l | l in h.lines :: l.Add? ==> !("++" <= l.text)
  }

  lemma {:induction false} AllCounted(file: string, ls: seq<DiffLine>)
    requires forall l | l in ls :: l.Add? ==> !("++" <= l.text)
    ensures CountedSide(Some(file), file, ls) == NewSide(ls) && NameAfter(Some(file), ls) == Some(file)
  {
    if ls != [] {
      assert ls[0] in ls;
      if ls[0].Add? {
        PlainAdd(ls[0].text);
      }
      AllCounted(file, ls[1..]);
    }
  }

  lemma {:induction false} CountedIsContent(file: string, hs: seq<Hunk>, content: seq<string>, line: nat)
    requires forall h | h in hs :: Shows(h, content) && NoDoublePlus(h)
    ensures if exists h :: h in hs && Covers(h, line)
            then 1 <= line <= |content| && CountedLookup(Some(file), file, hs, line) == Some(content[line - 1])
            else CountedLookup(Some(file), file, hs, line).None?
  {
    if hs != [] {
      hide CountedSide, NameAfter, NewSide;
      assert hs[0] in hs && Shows(hs[0], content) && NoDoublePlus(hs[0]);
      AllCounted(file, hs[0].lines);
      CountedIsContent(file, hs[1..], content, line);
      assert hs == [hs[0]] + hs[1..];
    }
  }

  predicate InHunks(d: FileDiff, line: nat) {
    exists h :: h in d.hunks && Covers(h, line)
  }

  /** The lookup of one line of a file is right: line n of the new file when n lies in one of the file's
      hunks, and nothing otherwise. */
  ghost predicate RightLine(d: FileDiff, content: seq<string>, line: nat, found: Option<string>) {
    if InHunks(d, line) then 1 <= line <= |content| && found == Some(content[line - 1]) else found.None?
  }

  ghost predicate AllRight(ds: seq<FileDiff>, k: nat, content: seq<string>)
    requires k < |ds|
  {
    forall line: nat :: RightLine(ds[k], content, line, NewFileLine(ds[k].newPath, line, RenderDiff(ds)))
  }

  // ---- who else answers to a name ----

  predicate HasNewSide(d: FileDiff) {
    exists h :: h in d.hunks && NewSide(h.lines) != []
  }

  /** The file has an added line that reads like the header of the named file. */
  predicate AddsHeader(d: FileDiff, file: string) {
    exists h, l :: h in d.hunks && l in h.lines && l.Add? && NewTarget("+" + l.text) == Some(file)
  }

  /** Section i begins its hunks under the name. */
  predicate Answers(ds: seq<FileDiff>, i: nat, file: string)
    requires i < |ds|
  {
    HasNewSide(ds[i]) && Begun(NameAt(ds, i), ds[i]) == Some(file)
  }

  /** And has it from no label of its own: it stands in its first line, or a section before left it in force. */
  predicate Inherits(ds: seq<FileDiff>, i: nat, file: string)
    requires i < |ds|
  {
    Answers(ds, i, file) && (ds[i].labelled ==> NewTarget(NewLine(ds[i])).None?)
  }

  /** No other section goes by the name of section k, at its beginning or after an added line. */
  ghost predicate Alone(ds: seq<FileDiff>, k: nat)
    requires k < |ds|
  {
    forall i | 0 <= i < |ds| && i != k :: !Answers(ds, i, ds[k].newPath) && !AddsHeader(ds[i], ds[k].newPath)
  }

  lemma {:induction false} NeverNamed(name: Option<string>, file: string, ls: seq<DiffLine>)
    requires name != Some(file) && forall l | l in ls && l.Add? :: NewTarget("+" + l.text) != Some(file)
    ensures CountedSide(name, file, ls) == [] && NameAfter(name, ls) != Some(file)
    decreases |ls|
  {
    hide NewTarget;
    if ls != [] {
      assert ls[0] in ls;
      NeverNamed(Renamed(name, ls[0]), file, ls[1..]);
    }
  }

  lemma {:induction false} NothingNamed(name: Option<string>, file: string, hs: seq<Hunk>, line: nat)
    requires name != Some(file)
    requires forall h, l :: h in hs && l in h.lines && l.Add? ==> NewTarget("+" + l.text) != Some(file)
    ensures CountedLookup(name, file, hs, line).None?
    decreases |hs|
  {
    hide NewTarget, CountedSide, NameAfter;
    if hs != [] {
      assert hs[0] in hs;
      NeverNamed(name, file, hs[0].lines);
      NothingNamed(NameAfter(name, hs[0].lines), file, hs[1..], line);
    }
  }

  /** A section that neither begins under the name nor adds a header of it counts nothing for it. */
  lemma SilentSection(ds: seq<FileDiff>, i: nat, file: string, line: nat)
    requires i < |ds| && !Answers(ds, i, file) && !AddsHeader(ds[i], file)
    ensures SectionLookup(NameAt(ds, i), ds[i], file, line).None?
  {
    hide Begun, CountedLookup, CountedSide, NewSide, NewTarget;
    var d, name := ds[i], Begun(NameAt(ds, i), ds[i]);
    if HasNewSide(d) {
      NothingNamed(name, file, d.hunks, line);
    } else {
      forall h, other | h in d.hunks ensures |CountedSide(other, file, h.lines)| == 0 {
        CountedShorter(other, file, h.lines);
      }
      CountedMiss(name, file, d.hunks, line);
    }
  }

  /** What is found: in the sections before, in the file's own, or in those after. */
  lemma {:induction false} LookupSplits(ds: seq<FileDiff>, k: nat, file: string, line: nat)
    requires k <= |ds|
    ensures var before := LookupBefore(ds, k, file, line);
      LookupFrom(ds, 0, file, line) == if before.Some? then before else LookupFrom(ds, k, file, line)
  {
    hide SectionLookup;
    if k > 0 {
      LookupSplits(ds, k - 1, file, line);
    }
  }

  lemma {:induction false} NothingBefore(ds: seq<FileDiff>, k: nat, file: string, line: nat)
    requires k <= |ds| && forall i | 0 <= i < k :: !Answers(ds, i, file) && !AddsHeader(ds[i], file)
    ensures LookupBefore(ds, k, file, line) == None
  {
    hide SectionLookup, Answers, AddsHeader;
    if k > 0 {
      NothingBefore(ds, k - 1, file, line);
      SilentSection(ds, k - 1, file, line);
    }
  }

  lemma {:induction false} NothingFrom(ds: seq<FileDiff>, k: nat, file: string, line: nat)
    requires k <= |ds| && forall i | k <= i < |ds| :: !Answers(ds, i, file) && !AddsHeader(ds[i], file)
    ensures LookupFrom(ds, k, file, line) == None
    decreases |ds| - k
  {
    hide SectionLookup, Answers, AddsHeader;
    if k < |ds| {
      SilentSection(ds, k, file, line);
      NothingFrom(ds, k + 1, file, line);
    }
  }

  /** Among any number of files and hunks, every line of a file is looked up rightly, if its section begins under its
      name, no other one goes by it, and no added line of it begins with two plus signs. */
  lemma LookupIsNewFileLine(ds: seq<FileDiff>, k: nat, content: seq<string>, line: nat)
    requires forall d | d in ds :: FileOk(d)
    requires k < |ds| && Alone(ds, k) && Begun(NameAt(ds, k), ds[k]) == Some(ds[k].newPath)
    requires forall h | h in ds[k].hunks :: Shows(h, content) && NoDoublePlus(h)
    ensures RightLine(ds[k], content, line, NewFileLine(ds[k].newPath, line, RenderDiff(ds)))
  {
    hide FileOk, NewFileLine, Covers, Shows, NoDoublePlus, CountedLookup, Answers, AddsHeader, Begun;
    var file := ds[k].newPath;
    LookupIsCounted(ds, file, line);
    LookupSplits(ds, k, file, line);
    NothingBefore(ds, k, file, line);
    NothingFrom(ds, k + 1, file, line);
    CountedIsContent(file, ds[k].hunks, content, line);
  }

  // ---- exactly when the lookup is right ----

  /** The hunks of a file come in order and do not overlap. */
  ghost predicate Ordered(hs: seq<Hunk>) {
    forall i, j :: 0 <= i < j < |hs| ==> hs[i].newStart + |NewSide(hs[i].lines)| <= hs[j].newStart
  }

  /** What hunk i of section k has to meet for its lines to be found: it begins under the file's name, and adds no line
      that begins with two plus signs. */
  ghost predicate Findable(ds: seq<FileDiff>, k: nat, i: nat)
    requires k < |ds| && i < |ds[k].hunks|
  {
    var d := ds[k];
    NewSide(d.hunks[i].lines) != [] ==>
      NamesAfter(Begun(NameAt(ds, k), d), d.hunks[..i]) == Some(d.newPath) && NoDoublePlus(d.hunks[i])
  }

  /** What other sections count under the file's name does no harm: before its section it is the file's own line, and
      after it has a number that its hunks answer for. */
  ghost predicate StraysHarmless(ds: seq<FileDiff>, k: nat, content: seq<string>)
    requires k < |ds|
  {
    && (forall line: nat :: LookupBefore(ds, k, ds[k].newPath, line).Some? ==>
          RightLine(ds[k], content, line, LookupBefore(ds, k, ds[k].newPath, line)))
    && (forall line: nat :: LookupFrom(ds, k + 1, ds[k].newPath, line).Some? ==> InHunks(ds[k], line))
  }

  /** What is found at a number: in a section before, in the file's own, or in one after. */
  function Answer(ds: seq<FileDiff>, k: nat, line: nat): Option<string>
    requires k < |ds|
  {
    var before := LookupBefore(ds, k, ds[k].newPath, line);
    var own := SectionLookup(NameAt(ds, k), ds[k], ds[k].newPath, line);
    if before.Some? then before else if own.Some? then own else LookupFrom(ds, k + 1, ds[k].newPath, line)
  }

  /** Every line of the hunk is answered by its own text all the same: from another section, or because the line that is
      found in its place reads alike. */
  ghost predicate Repeated(ds: seq<FileDiff>, k: nat, content: seq<string>, i: nat)
    requires k < |ds| && i < |ds[k].hunks|
  {
    forall line: nat | Covers(ds[k].hunks[i], line) ::
      1 <= line <= |content| && Answer(ds, k, line) == Some(content[line - 1])
  }

  /** Another section counts under the file's name, at the number of the hunk's last line, what that line reads. */
  ghost predicate LastIsEchoed(ds: seq<FileDiff>, k: nat, content: seq<string>, i: nat)
    requires k < |ds| && i < |ds[k].hunks|
  {
    var h := ds[k].hunks[i];
    var last := h.newStart + |NewSide(h.lines)| - 1;
    && 1 <= last <= |content|
    && Some(content[last - 1]) in {LookupBefore(ds, k, ds[k].newPath, last),
                                   LookupFrom(ds, k + 1, ds[k].newPath, last)}
  }

  /** When every line of a file is looked up rightly: exactly when nothing that other sections count under its name, by
      a label, an added line or a name left in force, does harm, and each of its hunks with a new side begins under its
      name and adds no line that begins with two plus signs, or else is repeated; and no hunk is unless another section
      counts its last line under the name, at its number. */
  lemma LookupIsExact(ds: seq<FileDiff>, k: nat, content: seq<string>)
    requires forall d | d in ds :: FileOk(d)
    requires k < |ds| && Ordered(ds[k].hunks) && forall h | h in ds[k].hunks :: Shows(h, content)
    ensures AllRight(ds, k, content)
       <==> && StraysHarmless(ds, k, content)
            && forall i | 0 <= i < |ds[k].hunks| :: Findable(ds, k, i) || Repeated(ds, k, content, i)
    ensures forall i | 0 <= i < |ds[k].hunks| ::
      !Findable(ds, k, i) && Repeated(ds, k, content, i) ==> LastIsEchoed(ds, k, content, i)
  {
    hide FileOk, NewFileLine, Findable, Repeated, RightLine, InHunks, LastIsEchoed, RenderDiff, LookupFrom,
      LookupBefore, StraysHarmless, Shows;
    var d, file := ds[k], ds[k].newPath;
    forall line: nat ensures NewFileLine(file, line, RenderDiff(ds)) == Answer(ds, k, line) {
      LookupIsCounted(ds, file, line);
      LookupIsAnswer(ds, k, line);
    }
    if AllRight(ds, k, content) {
      RightMeansHarmless(ds, k, content);
      forall i | 0 <= i < |d.hunks| ensures Repeated(ds, k, content, i) {
        RightMeansRepeated(ds, k, content, i);
      }
    }
    if && StraysHarmless(ds, k, content)
       && forall i | 0 <= i < |d.hunks| :: Findable(ds, k, i) || Repeated(ds, k, content, i)
    {
      forall line: nat ensures RightLine(d, content, line, NewFileLine(file, line, RenderDiff(ds))) {
        HarmlessIsRight(ds, k, content, line);
      }
    }
    forall i | 0 <= i < |d.hunks| && !Findable(ds, k, i) && Repeated(ds, k, content, i)
      ensures LastIsEchoed(ds, k, content, i)
    {
      UnfindableIsEchoed(ds, k, content, i);
    }
  }

  lemma LookupIsAnswer(ds: seq<FileDiff>, k: nat, line: nat)
    requires k < |ds|
    ensures LookupFrom(ds, 0, ds[k].newPath, line) == Answer(ds, k, line)
  {
    hide SectionLookup;
    LookupSplits(ds, k, ds[k].newPath, line);
  }

  ghost predicate AnswersRight(ds: seq<FileDiff>, k: nat, content: seq<string>)
    requires k < |ds|
  {
    AllRight(ds, k, content)
    && forall line: nat :: NewFileLine(ds[k].newPath, line, RenderDiff(ds)) == Answer(ds, k, line)
  }

  lemma RightMeansHarmless(ds: seq<FileDiff>, k: nat, content: seq<string>)
    requires k < |ds| && Ordered(ds[k].hunks) && AnswersRight(ds, k, content)
    ensures StraysHarmless(ds, k, content)
  {
    hide NewFileLine, LookupFrom, LookupBefore, SectionLookup, InHunks, RenderDiff;
    var d, file := ds[k], ds[k].newPath;
    forall line: nat
      ensures LookupBefore(ds, k, file, line).Some? ==> RightLine(d, content, line, LookupBefore(ds, k, file, line))
      ensures LookupFrom(ds, k + 1, file, line).Some? ==> InHunks(d, line)
    {
      assert RightLine(d, content, line, NewFileLine(file, line, RenderDiff(ds)));
      assert NewFileLine(file, line, RenderDiff(ds)) == Answer(ds, k, line);
    }
  }

  lemma RightMeansRepeated(ds: seq<FileDiff>, k: nat, content: seq<string>, i: nat)
    requires k < |ds| && i < |ds[k].hunks| && AnswersRight(ds, k, content)
    ensures Repeated(ds, k, content, i)
  {
    hide NewFileLine, LookupFrom, LookupBefore, SectionLookup, RenderDiff, Covers;
    forall line: nat | Covers(ds[k].hunks[i], line)
      ensures 1 <= line <= |content| && Answer(ds, k, line) == Some(content[line - 1])
    {
      assert InHunks(ds[k], line);
      assert RightLine(ds[k], content, line, NewFileLine(ds[k].newPath, line, RenderDiff(ds)));
    }
  }

  lemma HarmlessIsRight(ds: seq<FileDiff>, k: nat, content: seq<string>, line: nat)
    requires k < |ds| && Ordered(ds[k].hunks) && forall h | h in ds[k].hunks :: Shows(h, content)
    requires StraysHarmless(ds, k, content)
    requires forall i | 0 <= i < |ds[k].hunks| :: Findable(ds, k, i) || Repeated(ds, k, content, i)
    ensures RightLine(ds[k], content, line, Answer(ds, k, line))
  {
    hide LookupFrom, LookupBefore, Findable, Shows, Covers, Begun, NameAt;
    var d, file := ds[k], ds[k].newPath;
    if InHunks(d, line) {
      var h :| h in d.hunks && Covers(h, line);
      var i :| 0 <= i < |d.hunks| && d.hunks[i] == h;
      if LookupBefore(ds, k, file, line).None? && Findable(ds, k, i) {
        FindableIsFound(ds, k, content, i, line);
      }
    } else {
      CountedIsCovered(Begun(NameAt(ds, k), d), d, file, line);
    }
  }

  lemma FindableIsFound(ds: seq<FileDiff>, k: nat, content: seq<string>, i: nat, line: nat)
    requires k < |ds| && i < |ds[k].hunks| && Ordered(ds[k].hunks) && Findable(ds, k, i)
    requires Shows(ds[k].hunks[i], content) && Covers(ds[k].hunks[i], line)
    ensures 1 <= line <= |content|
    ensures SectionLookup(NameAt(ds, k), ds[k], ds[k].newPath, line) == Some(content[line - 1])
  {
    hide Begun, NameAt, CountedLookup, CountedSide, NewSide, NamesAfter;
    var d := ds[k];
    OwnHunk(Begun(NameAt(ds, k), d), d.newPath, d.hunks, i, line);
    AllCounted(d.newPath, d.hunks[i].lines);
  }

  /** Where hunk i covers a number, no other one has a say. */
  lemma {:induction false} OwnHunk(name: Option<string>, file: string, hs: seq<Hunk>, i: nat, line: nat)
    requires Ordered(hs) && i < |hs| && Covers(hs[i], line)
    ensures CountedLookup(name, file, hs, line)
         == HunkLookup(hs[i], line, CountedSide(NamesAfter(name, hs[..i]), file, hs[i].lines))
    decreases i
  {
    hide CountedSide, NewSide, NameAfter;
    CountedShorter(name, file, hs[0].lines);
    var rest := hs[1..];
    if i > 0 {
      assert Covers(rest[i - 1], line) && Ordered(rest);
      OwnHunk(NameAfter(name, hs[0].lines), file, rest, i - 1, line);
      assert hs[..i][1..] == rest[..i - 1];
    } else {
      forall h, other | h in rest ensures !(h.newStart <= line < h.newStart + |CountedSide(other, file, h.lines)|) {
        var j :| 0 <= j < |rest| && rest[j] == h;
        assert hs[j + 1] == h;
      }
      CountedMiss(NameAfter(name, hs[0].lines), file, rest, line);
    }
  }

  lemma CountedIsCovered(name: Option<string>, d: FileDiff, file: string, line: nat)
    requires !InHunks(d, line)
    ensures CountedLookup(name, file, d.hunks, line).None?
  {
    hide CountedSide, NewSide;
    forall h, other | h in d.hunks ensures !(h.newStart <= line < h.newStart + |CountedSide(other, file, h.lines)|) {
      CountedShorter(other, file, h.lines);
      assert !Covers(h, line);
    }
    CountedMiss(name, file, d.hunks, line);
  }

  /** The last line of a hunk that is not findable is not counted. */
  lemma UnfindableIsEchoed(ds: seq<FileDiff>, k: nat, content: seq<string>, i: nat)
    requires k < |ds| && i < |ds[k].hunks| && Ordered(ds[k].hunks)
    requires !Findable(ds, k, i) && Repeated(ds, k, content, i)
    ensures LastIsEchoed(ds, k, content, i)
  {
    hide Begun, NameAt, CountedLookup, CountedSide, NewSide, NamesAfter, LookupFrom, LookupBefore;
    var d, h := ds[k], ds[k].hunks[i];
    var name := Begun(NameAt(ds, k), d);
    var last := h.newStart + |NewSide(h.lines)| - 1;
    assert Covers(h, last);
    CountedShorter(NamesAfter(name, d.hunks[..i]), d.newPath, h.lines);
    OwnHunk(name, d.newPath, d.hunks, i, last);
  }

  /** A counted side is no longer than the new side, and shorter when it begins under another name or holds a line that
      begins with two plus signs. */
  lemma {:induction false} CountedShorter(name: Option<string>, file: string, ls: seq<DiffLine>)
    ensures |CountedSide(name, file, ls)| <= |NewSide(ls)|
    ensures (exists l :: l in ls && l.Add? && "++" <= l.text) ==> |CountedSide(name, file, ls)| < |NewSide(ls)|
    ensures name != Some(file) && NewSide(ls) != [] ==> |CountedSide(name, file, ls)| < |NewSide(ls)|
    decreases |ls|
  {
    hide NewTarget;
    if ls != [] {
      CountedShorter(Renamed(name, ls[0]), file, ls[1..]);
      assert ls == [ls[0]] + ls[1..];
    }
  }

  /** A number beyond the counted part of every hunk is not found. */
  lemma {:induction false} CountedMiss(name: Option<string>, file: string, hs: seq<Hunk>, line: nat)
    requires forall h | h in hs :: forall name ::
      !(h.newStart <= line < h.newStart + |CountedSide(name, file, h.lines)|)
    ensures CountedLookup(name, file, hs, line).None?
    decreases |hs|
  {
    hide CountedSide, NameAfter;
    if hs != [] {
      assert hs[0] in hs;
      CountedMiss(NameAfter(name, hs[0].lines), file, hs[1..], line);
    }
  }

  /** A file that no other section answers for has no strays, and no hunk of it is echoed. */
  lemma AloneIsHarmless(ds: seq<FileDiff>, k: nat, content: seq<string>)
    requires k < |ds| && Alone(ds, k)
    ensures StraysHarmless(ds, k, content)
    ensures forall i | 0 <= i < |ds[k].hunks| :: !LastIsEchoed(ds, k, content, i)
  {
    hide Answers, AddsHeader, LookupFrom, LookupBefore, RightLine, InHunks, NewSide;
    var file := ds[k].newPath;
    forall line: nat
      ensures LookupBefore(ds, k, file, line).Some? ==> RightLine(ds[k], content, line, LookupBefore(ds, k, file, line))
      ensures LookupFrom(ds, k + 1, file, line).Some? ==> InHunks(ds[k], line)
    {
      NothingBefore(ds, k, file, line);
      NothingFrom(ds, k + 1, file, line);
    }
    forall i | 0 <= i < |ds[k].hunks| ensures !LastIsEchoed(ds, k, content, i) {
      var h := ds[k].hunks[i];
      var last := h.newStart + |NewSide(h.lines)| - 1;
      if last >= 1 {
        NothingBefore(ds, k, file, last);
        NothingFrom(ds, k + 1, file, last);
      }
    }
  }

  // ---- the names of the first line ----

  predicate SplitAt(s: string, i: nat) {
    0 < i && i + 3 < |s| && s[i..i + 3] == " b/"
  }

  lemma LastSplitIs(s: string, k: nat)
    requires k <= |s|
    ensures match LastSplit(s, k)
      case None => forall i | 0 <= i <= k :: !SplitAt(s, i)
      case Some(t) => exists i :: 0 <= i <= k && SplitAt(s, i) && t == s[i + 3..]
                        && forall j | i < j <= k :: !SplitAt(s, j)
  {
    if k > 0 {
      if SplitAt(s, k) {
        assert LastSplit(s, k) == Some(s[k + 3..]);
      } else {
        LastSplitIs(s, k - 1);
      }
    }
  }

  /** The name that is read from a first line with bare names is the new one, unless that holds ` b/` itself. */
  lemma BareNamesRead(old_: string, new_: string)
    requires Dots(old_) && Dots(new_) && forall i :: !MarkAt(new_, i)
    ensures GitTarget(GIT_PREFIX + (old_ + (" b/" + new_))) == Some(new_)
  {
    var s := old_ + (" b/" + new_);
    var line := GIT_PREFIX + s;
    assert line[|GIT_PREFIX|..] == s;
    LastSplitIs(s, |s|);
    assert s[|old_|..|old_| + 3] == " b/" && s[|old_| + 3..] == new_;
    assert SplitAt(s, |old_|);
    forall j: nat | j > |old_| ensures !SplitAt(s, j) {
      NoLaterSplit(old_, new_, j);
    }
  }

  /** ` b/` with text after it. */
  predicate MarkAt(s: string, i: int) {
    0 <= i && i + 3 < |s| && s[i..i + 3] == " b/"
  }

  lemma NoLaterSplit(old_: string, new_: string, j: nat)
    requires j > |old_| && forall i :: !MarkAt(new_, i)
    ensures !SplitAt(old_ + (" b/" + new_), j)
  {
    var s := old_ + (" b/" + new_);
    if SplitAt(s, j) {
      assert s[j] == s[j..j + 3][0] == ' ';
      assert s[|old_| + 1] == 'b' && s[|old_| + 2] == '/';
      var i := j - |old_| - 3;
      Shifted(old_ + " b/", new_, i);
      assert s == old_ + " b/" + new_;
      assert MarkAt(new_, i);
    }
  }

  lemma Shifted(front: string, tail: string, i: nat)
    requires i + 3 <= |tail|
    ensures (front + tail)[|front| + i..|front| + i + 3] == tail[i..i + 3]
  {
  }

  /** A first line gives a name only if it has two bare ones, and then the last that it can be split into. */
  lemma GitTargetIs(line: string)
    ensures match GitTarget(line)
      case None => true
      case Some(t) =>
        && GIT_PREFIX <= line
        && exists i :: 0 <= i <= |line| - |GIT_PREFIX| && SplitAt(line[|GIT_PREFIX|..], i)
             && t == line[|GIT_PREFIX|..][i + 3..]
             && forall j | i < j <= |line| - |GIT_PREFIX| :: !SplitAt(line[|GIT_PREFIX|..], j)
  {
    if GitTarget(line).Some? {
      LastSplitIs(line[|GIT_PREFIX|..], |line| - |GIT_PREFIX|);
    }
  }

  // ---- what git prints ----

  /** The section has the label git prints: bare, for a deleted file, or in quotes; or no label, for want of hunks. */
  predicate GitPrints(d: FileDiff) {
    if d.labelled then
      (d.newLabel == GitLabel(d.newPath) && Dots(d.newPath)) || d.newLabel == "/dev/null" || "\"" <= d.newLabel
    else d.hunks == []
  }

  lemma GitLabelRead(d: FileDiff)
    requires GitPrints(d) && d.labelled && NewTarget(NewLine(d)).Some?
    ensures d.newLabel == GitLabel(d.newPath) && "b/" + NewTarget(NewLine(d)).value == d.newLabel
  {
    var raw := NewLine(d);
    assert NEW_PREFIX[4] == 'b' && raw[4..] == d.newLabel && NEW_PREFIX == "+++ " + "b/";
    assert raw[4] == 'b';
    assert raw[|NEW_PREFIX|..] == d.newLabel[2..];
  }

  lemma BareLabelRead(d: FileDiff)
    requires d.labelled && d.newLabel == "b/" + d.newPath && Dots(d.newPath)
    ensures forall name :: Begun(name, d) == Some(d.newPath)
  {
    NewLabel(d.newPath);
    assert NewLine(d) == NEW_PREFIX + d.newPath;
  }

  /** Where both names are printed in quotes none is read: the name in force stays. */
  lemma QuotedIsUnread(name: Option<string>, d: FileDiff)
    requires "\"" <= d.names && "\"" <= d.newLabel
    ensures Begun(name, d) == name
  {
    assert GitLine(d)[11] == '"' && GIT_PREFIX[11] == 'a';
    assert NewLine(d)[4] == '"' && NEW_PREFIX[4] == 'b';
  }

  /** Of the labels git prints, the one of a name with a space is not the name, and no other name's label is it
      either: in git's own diffs such a file is not found, unless an added line reads like its header, or a section
      whose own label is not read stands under its name. */
  lemma SpacedNameIsMissedInGitDiffs(ds: seq<FileDiff>, file: string, line: nat)
    requires forall d | d in ds :: FileOk(d) && GitPrints(d)
    requires ' ' in file && file[|file| - 1] != '\t'
    ensures NewFileLine(file, line, RenderDiff(ds)).Some? ==>
      exists i :: 0 <= i < |ds| && (AddsHeader(ds[i], file) || Inherits(ds, i, file))
  {
    hide FileOk, NewFileLine, AddsHeader, NewTarget, GitPrints, HasNewSide;
    LookupIsCounted(ds, file, line);
    if forall i | 0 <= i < |ds| :: !AddsHeader(ds[i], file) && !Inherits(ds, i, file) {
      forall i | 0 <= i < |ds| ensures !Answers(ds, i, file) {
        var d := ds[i];
        assert d in ds;
        if d.labelled && NewTarget(NewLine(d)).Some? {
          GitLabelRead(d);
          SpacedIsOther(d, file);
        }
      }
      NothingFrom(ds, 0, file, line);
    }
  }

  lemma SpacedIsOther(d: FileDiff, file: string)
    requires d.newLabel == GitLabel(d.newPath) && ' ' in file && file[|file| - 1] != '\t'
    ensures d.newLabel != "b/" + file
  {
    var own := if ' ' in d.newPath then d.newPath + "\t" else d.newPath;
    assert ("b/" + own)[2..] == own && ("b/" + file)[2..] == file;
  }

  /** A name without a space is its own label, and no other file's: in git's diffs a file alone with its name stays
      alone, whatever the other names are, unless an added line reads like its header, or a section whose own label is
      not read stands under its name. */
  lemma PlainNameIsAlone(ds: seq<FileDiff>, k: nat)
    requires forall d | d in ds :: GitPrints(d)
    requires k < |ds| && ' ' !in ds[k].newPath && forall i | 0 <= i < |ds| && i != k :: ds[i].newPath != ds[k].newPath
    ensures Alone(ds, k) <==>
      forall i | 0 <= i < |ds| && i != k :: !AddsHeader(ds[i], ds[k].newPath) && !Inherits(ds, i, ds[k].newPath)
  {
    hide AddsHeader, NewTarget, GitPrints, HasNewSide;
    forall i | 0 <= i < |ds| && i != k ensures Answers(ds, i, ds[k].newPath) ==> Inherits(ds, i, ds[k].newPath) {
      var d := ds[i];
      assert d in ds;
      if d.labelled && NewTarget(NewLine(d)).Some? {
        GitLabelRead(d);
        PlainIsOther(d, ds[k].newPath);
      }
    }
  }

  lemma PlainIsOther(d: FileDiff, file: string)
    requires d.newLabel == GitLabel(d.newPath) && ' ' !in file && file != d.newPath
    ensures d.newLabel != "b/" + file
  {
    var own := if ' ' in d.newPath then d.newPath + "\t" else d.newPath;
    assert ("b/" + own)[2..] == own && ("b/" + file)[2..] == file;
  }

  // ---- where it fails ----

  /** A section with bare names. */
  function Bare(path: string, h: Hunk): FileDiff {
    FileDiff(path, "a/" + path + " b/" + path, [], true, "a/" + path, "b/" + path, [], [h])
  }

  /** A section whose names git prints in quotes. */
  function InQuotes(path: string, escaped: string, h: Hunk): FileDiff {
    FileDiff(path, "\"a/" + escaped + "\" \"b/" + escaped + "\"", [], true, "\"a/" + escaped + "\"",
             "\"b/" + escaped + "\"", [], [h])
  }

  lemma BareOk(path: string, h: Hunk)
    requires Dots(path) && HunkOk(h)
    ensures FileOk(Bare(path, h)) && forall name :: Begun(name, Bare(path, h)) == Some(path)
  {
    hide GitTarget, NewTarget, Dots;
    DotsAreOneLine(path);
    BareLabelRead(Bare(path, h));
  }

  /** What stands in a section with quoted names is found under the name of the section before, at numbers that are in
      none of that file's hunks, although its own hunk is findable. */
  lemma QuotedSectionAnswers(path: string, other: string, escaped: string, x: string, y: string)
    requires Dots(path) && OneLine(escaped) && OneLine(x) && OneLine(y)
    ensures var d := Bare(path, Hunk(5, 1, 5, 1, "", [Context(x)]));
      var ds := [d, InQuotes(other, escaped, Hunk(1, 1, 1, 1, "", [Context(y)]))];
      && (forall e | e in ds :: FileOk(e)) && Findable(ds, 0, 0)
      && NewFileLine(path, 1, RenderDiff(ds)) == Some(y) && !InHunks(d, 1)
  {
    hide NewFileLine, RenderDiff, GitTarget, HunkTarget, NewTarget, Begun;
    var g, h := Hunk(5, 1, 5, 1, "", [Context(x)]), Hunk(1, 1, 1, 1, "", [Context(y)]);
    var d, e := Bare(path, g), InQuotes(other, escaped, h);
    var ds := [d, e];
    BareOk(path, g);
    assert HunkOk(h) && FileOk(e);
    OneContext(path, g, x);
    OneContext(path, h, y);
    QuotedIsUnread(Some(path), e);
    assert [] == d.hunks[..0];
    assert NameAt(ds, 0) == None && NameAt(ds, 1) == Left(None, d) == Some(path);
    assert SectionLookup(None, d, path, 1) == None && SectionLookup(Some(path), e, path, 1) == Some(y);
    LookupIsCounted(ds, path, 1);
  }

  lemma OneContext(file: string, h: Hunk, text: string)
    requires h.lines == [Context(text)]
    ensures CountedSide(Some(file), file, h.lines) == NewSide(h.lines) == [text]
    ensures NamesAfter(Some(file), [h]) == Some(file) && NoDoublePlus(h)
    ensures forall line: nat :: CountedLookup(Some(file), file, [h], line) == HunkLookup(h, line, [text])
  {
    var ls := h.lines;
    assert ls[1..] == [] && [h][1..] == [];
    assert CountedSide(Some(file), file, ls) == [text] + CountedSide(Some(file), file, []);
    assert NewSide(ls) == [text] + NewSide([]);
    assert NameAfter(Some(file), ls) == NameAfter(Some(file), []) == Some(file);
    assert NamesAfter(Some(file), [h]) == NamesAfter(Some(file), []) == Some(file);
    forall line: nat ensures CountedLookup(Some(file), file, [h], line) == HunkLookup(h, line, [text]) {
      assert CountedLookup(Some(file), file, [], line) == None;
    }
  }

  /** An added line that reads like a header answers for another file: what follows it is found there, although the
      diff has no section of that file. */
  lemma AddedHeaderAnswers(path: string, name: string, next: string)
    requires Dots(path) && Dots(name) && path != name && OneLine(next) && !("++" <= next)
    ensures var ds := [Bare(path, Hunk(0, 0, 1, 2, "", [Add("++ b/" + name), Add(next)]))];
      NewFileLine(name, 1, RenderDiff(ds)) == Some(next)
  {
    hide NewFileLine, RenderDiff, GitTarget, HunkTarget, NewTarget, Begun;
    var first, second := Add("++ b/" + name), Add(next);
    var h := Hunk(0, 0, 1, 2, "", [first, second]);
    var d := Bare(path, h);
    DotsAreOneLine(name);
    assert "+" + first.text == NEW_PREFIX + name;
    NewLabel(name);
    PlainAdd(next);
    assert LineOk(first) && LineOk(second) && HunkOk(h);
    BareOk(path, h);
    assert [first, second][1..] == [second] && [second][1..] == [];
    assert Renamed(Some(path), first) == Some(name);
    assert CountedSide(Some(name), name, [second]) == [next] + CountedSide(Renamed(Some(name), second), name, []);
    assert CountedSide(Some(path), name, h.lines) == [next];
    assert CountedLookup(Some(path), name, [h], 1) == Some(next);
    LookupIsCounted([d], name, 1);
  }

  /** An added line that begins with two plus signs is not counted: it is not found at its number, and
      the next line is found there instead. */
  lemma DoublePlusIsSkipped(path: string, text: string, next: string)
    requires Dots(path) && OneLine(text) && OneLine(next) && !("++" <= next)
    requires NewTarget("+++" + text).None?
    ensures var ds := [Bare(path, Hunk(0, 0, 1, 2, "", [Add("++" + text), Add(next)]))];
      NewFileLine(path, 1, RenderDiff(ds)) == Some(next) && NewFileLine(path, 2, RenderDiff(ds)).None?
  {
    hide NewFileLine, RenderDiff, GitTarget, HunkTarget, Begun;
    var first, second := Add("++" + text), Add(next);
    var h := Hunk(0, 0, 1, 2, "", [first, second]);
    var d := Bare(path, h);
    assert "+" + first.text == "+++" + text;
    PlainAdd(next);
    assert LineOk(first) && LineOk(second) && HunkOk(h);
    BareOk(path, h);
    assert [first, second][1..] == [second] && [second][1..] == [];
    assert Renamed(Some(path), first) == Renamed(Some(path), second) == Some(path);
    assert CountedSide(Some(path), path, [second]) == [next] + CountedSide(Some(path), path, []);
    assert CountedSide(Some(path), path, h.lines) == [next];
    assert [h][1..] == [];
    assert CountedLookup(Some(path), path, [h], 1) == Some(next);
    assert NameAfter(Some(path), [second]) == NameAfter(Some(path), []) == Some(path);
    assert CountedLookup(Some(path), path, [h], 2) == CountedLookup(NameAfter(Some(path), h.lines), path, [], 2);
    LookupIsCounted([d], path, 1);
    LookupIsCounted([d], path, 2);
  }

  lemma PlainAdd(text: string)
    requires !("++" <= text)
    ensures NewTarget("+" + text).None?
  {
    var raw := "+" + text;
    assert NEW_PREFIX[1] == '+' && NEW_PREFIX[2] == '+';
    if |text| >= 2 {
      assert raw[1] == text[0] && raw[2] == text[1];
      assert text[0] != '+' || text[1] != '+';
    }
  }
}
