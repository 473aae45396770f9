/** `findNewFileLineInDiff` (src/analysis/finding-filter.ts): the text of one line of a new file,
    looked up in a unified diff. */
module DiffLines {
  import opened Options
  import opened Decimal

  /** `split('\n')` */
  function SplitLines(text: string): (lines: seq<string>)
    ensures lines != []
  {
    if text == "" then [""]
    else
      var rest := SplitLines(text[1..]);
      if text[0] == '\n' then [""] + rest else [[text[0]] + rest[0]] + rest[1..]
  }

  // ---- the three patterns ----

  /** What `.` matches. */
  predicate Dot(c: char) {
    c != '\n' && c != '\r' && c != '\U{2028}' && c != '\U{2029}'
  }

  predicate Dots(s: string) {
    s != "" && forall i :: 0 <= i < |s| ==> Dot(s[i])
  }

  const GIT_PREFIX := "diff --git a/"
  const NEW_PREFIX := "+++ b/"

  /** The last " b/" before position `k` with text on both sides of it: `.+ b/(.+)$` is greedy. */
  function LastSplit(s: string, k: nat): Option<string>
    requires k <= |s|
  {
    if k == 0 then None
    else if k + 3 < |s| && s[k..k + 3] == " b/" then Some(s[k + 3..])
    else LastSplit(s, k - 1)
  }

  /** `/^diff --git a\/.+ b\/(.+)$/` */
  function GitTarget(line: string): Option<string> {
    if !(GIT_PREFIX <= line) || !Dots(line[|GIT_PREFIX|..]) then None
    else LastSplit(line[|GIT_PREFIX|..], |line| - |GIT_PREFIX|)
  }

  /** `/^\+\+\+ b\/(.+)$/` */
  function NewTarget(line: string): Option<string> {
    if NEW_PREFIX <= line && Dots(line[|NEW_PREFIX|..]) then Some(line[|NEW_PREFIX|..]) else None
  }

  /** `\d+(?:,\d+)?`: the number and what follows. */
  function Range(s: string): Option<(nat, string)> {
    var n := LeadingDigits(s);
    if n == 0 then None
    else
      var rest := s[n..];
      var m := if rest != "" && rest[0] == ',' then LeadingDigits(rest[1..]) else 0;
      Some((ValueOf(s[..n]), if m > 0 then rest[1 + m..] else rest))
  }

  /** `/^@@ -\d+(?:,\d+)? \+(\d+)(?:,\d+)? @@/` */
  function HunkTarget(line: string): Option<nat> {
    if !("@@ -" <= line) then None
    else
      var before := Range(line[4..]);
      if before.None? || !(" +" <= before.value.1) then None
      else
        var after := Range(before.value.1[2..]);
        if after.None? || !(" @@" <= after.value.1) then None else Some(after.value.0)
  }

  // ---- the scan ----

  datatype Scan = Scan(file: Option<string>, newLine: Option<nat>) | Found(text: string)

  /** One line of the diff. */
  function Step(file: string, line: nat, s: Scan, raw: string): Scan {
    if s.Found? then s
    else if GitTarget(raw).Some? then Scan(GitTarget(raw), None)
    else if NewTarget(raw).Some? then s.(file := NewTarget(raw))
    else if HunkTarget(raw).Some? then s.(newLine := HunkTarget(raw))
    else if s.newLine.None? || s.file != Some(file) then s
    else if "---" <= raw || "+++" <= raw then s
    else if "-" <= raw then s
    else if "+" <= raw || " " <= raw then
      if s.newLine.value == line then Found(raw[1..]) else s.(newLine := Some(s.newLine.value + 1))
    else s
  }

  function ScanLines(file: string, line: nat, s: Scan, raws: seq<string>): Scan
    decreases |raws|
  {
    if raws == [] then s else ScanLines(file, line, Step(file, line, s, raws[0]), raws[1..])
  }

  function FoundText(s: Scan): Option<string> {
    if s.Found? then Some(s.text) else None
  }

  function NewFileLine(file: string, line: nat, diff: string): Option<string> {
    FoundText(ScanLines(file, line, Scan(None, None), SplitLines(diff)))
  }

  /** The loop over the lines of the diff. */
  method FindNewFileLineInDiff(file: string, line: nat, diff: string) returns (r: Option<string>)
    ensures r == NewFileLine(file, line, diff)
  {
    hide GitTarget, NewTarget, HunkTarget, SplitLines;
    var raws := SplitLines(diff);
    var currentFile: Option<string> := None;
    var newLine: Option<nat> := None;
    for i := 0 to |raws|
      invariant ScanLines(file, line, Scan(None, None), raws)
             == ScanLines(file, line, Scan(currentFile, newLine), raws[i..])
    {
      var raw := raws[i];
      assert raws[i..][0] == raw && raws[i..][1..] == raws[i + 1..];
      if GitTarget(raw).Some? {
        currentFile := GitTarget(raw);
        newLine := None;
        continue;
      }
      if NewTarget(raw).Some? {
        currentFile := NewTarget(raw);
        continue;
      }
      if HunkTarget(raw).Some? {
        newLine := HunkTarget(raw);
        continue;
      }
      if newLine.None? || currentFile != Some(file) {
        continue;
      }
      if "---" <= raw || "+++" <= raw {
        continue;
      }
      if "-" <= raw {
        continue;
      }
      if "+" <= raw || " " <= raw {
        if newLine.value == line {
          FoundStays(file, line, raw[1..], raws[i + 1..]);
          return Some(raw[1..]);
        }
        newLine := Some(newLine.value + 1);
      }
    }
    return None;
  }

  lemma FoundStays(file: string, line: nat, text: string, raws: seq<string>)
    ensures ScanLines(file, line, Found(text), raws) == Found(text)
    decreases |raws|
  {
  }
}
