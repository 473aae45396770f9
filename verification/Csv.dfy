/** `exportCSV` and `escapeCSVField` (src/analytics/dashboard-generator.ts), against a reader of the format of
    section 2 of RFC 4180 with a line feed between records. */
module Csv {
  import opened Options

  // ---- the printer ----

  /** `value.replace(/"/g, '""')` */
  function DoubleQuotes(v: string): string {
    if v == "" then "" else (if v[0] == '"' then "\"\"" else [v[0]]) + DoubleQuotes(v[1..])
  }

  predicate Special(v: string) {
    ',' in v || '"' in v || '\n' in v || '\r' in v
  }

  function EscapeField(v: string): string {
    if Special(v) then "\"" + (DoubleQuotes(v) + "\"") else v
  }

  function PrintRow(fields: seq<string>): string {
    if fields == [] then ""
    else if |fields| == 1 then EscapeField(fields[0])
    else EscapeField(fields[0]) + ("," + PrintRow(fields[1..]))
  }

  /** The header and the rows, joined. */
  function ExportCsv(rows: seq<seq<string>>): string {
    if rows == [] then ""
    else if |rows| == 1 then PrintRow(rows[0])
    else PrintRow(rows[0]) + ("\n" + ExportCsv(rows[1..]))
  }

  // ---- the reader ----

  /** The text of a quoted field after its opening quote, and what follows its closing quote. */
  function ReadQuoted(s: string): (r: Option<(string, string)>)
    ensures r.Some? ==> |r.value.1| < |s|
  {
    if s == "" then None
    else if s[0] == '"' then
      if |s| > 1 && s[1] == '"' then
        var tail := ReadQuoted(s[2..]);
        if tail.None? then None else Some(("\"" + tail.value.0, tail.value.1))
      else Some(("", s[1..]))
    else
      var tail := ReadQuoted(s[1..]);
      if tail.None? then None else Some(([s[0]] + tail.value.0, tail.value.1))
  }

  /** An unquoted field: everything before a quote, a comma or a line break. */
  function ReadPlain(s: string): (r: (string, string))
    ensures |r.1| <= |s|
  {
    if s == "" || s[0] in {',', '"', '\n', '\r'} then ("", s)
    else
      var tail := ReadPlain(s[1..]);
      ([s[0]] + tail.0, tail.1)
  }

  function ReadField(s: string): (r: Option<(string, string)>)
    ensures r.Some? ==> |r.value.1| <= |s|
  {
    if s != "" && s[0] == '"' then ReadQuoted(s[1..]) else Some(ReadPlain(s))
  }

  /** Fields up to a line feed or the end of the file. */
  function ReadRecord(s: string): (r: Option<(seq<string>, string)>)
    ensures r.Some? ==> |r.value.1| <= |s| && (r.value.1 == "" || r.value.1[0] == '\n')
    decreases |s|
  {
    var field := ReadField(s);
    if field.None? then None
    else if field.value.1 == "" || field.value.1[0] == '\n' then Some(([field.value.0], field.value.1))
    else if field.value.1[0] != ',' then None
    else
      var tail := ReadRecord(field.value.1[1..]);
      if tail.None? then None else Some(([field.value.0] + tail.value.0, tail.value.1))
  }

  /** Records; the last one may or may not be followed by a line break. */
  function ReadFile(s: string): Option<seq<seq<string>>>
    decreases |s|
  {
    var record := ReadRecord(s);
    if record.None? then None
    else if |record.value.1| <= 1 then Some([record.value.0])
    else
      var tail := ReadFile(record.value.1[1..]);
      if tail.None? then None else Some([record.value.0] + tail.value)
  }

  // ---- the round trip ----

  predicate FieldEnd(rest: string) {
    rest == "" || rest[0] == ',' || rest[0] == '\n'
  }

  /** One more character of a quoted field. */
  lemma QuotedStep(c: char, v: string, tail: string, rest: string)
    requires ReadQuoted(tail) == Some((v, rest))
    ensures ReadQuoted((if c == '"' then "\"\"" else [c]) + tail) == Some(([c] + v, rest))
  {
    var head := if c == '"' then "\"\"" else [c];
    assert (head + tail)[|head|..] == tail;
    assert (head + tail)[0] == c;
    if c == '"' {
      assert (head + tail)[1] == '"';
    }
  }

  lemma {:induction false} QuotedReads(v: string, rest: string)
    requires FieldEnd(rest)
    ensures ReadQuoted(DoubleQuotes(v) + ("\"" + rest)) == Some((v, rest))
  {
    hide ReadQuoted;
    var after := "\"" + rest;
    if v == "" {
      assert "" + after == after;
      QuoteCloses(rest);
    } else {
      QuotedReads(v[1..], rest);
      var head := if v[0] == '"' then "\"\"" else [v[0]];
      QuotedStep(v[0], v[1..], DoubleQuotes(v[1..]) + after, rest);
      assert DoubleQuotes(v) + after == head + (DoubleQuotes(v[1..]) + after);
      assert [v[0]] + v[1..] == v;
    }
  }

  lemma QuoteCloses(rest: string)
    requires FieldEnd(rest)
    ensures ReadQuoted("\"" + rest) == Some(("", rest))
  {
    assert ("\"" + rest)[1..] == rest;
  }

  lemma {:induction false} PlainReads(v: string, rest: string)
    requires !Special(v) && FieldEnd(rest)
    ensures ReadPlain(v + rest) == (v, rest)
  {
    if v == "" {
      assert v + rest == rest;
    } else {
      assert v == [v[0]] + v[1..];
      PlainReads(v[1..], rest);
      assert (v + rest)[1..] == v[1..] + rest;
    }
  }

  lemma FieldReads(v: string, rest: string)
    requires FieldEnd(rest)
    ensures ReadField(EscapeField(v) + rest) == Some((v, rest))
  {
    hide ReadQuoted, ReadPlain, DoubleQuotes;
    if Special(v) {
      QuotedReads(v, rest);
      var body := DoubleQuotes(v) + ("\"" + rest);
      assert EscapeField(v) + rest == "\"" + body;
      assert ("\"" + body)[1..] == body;
    } else {
      PlainReads(v, rest);
      assert v != "" ==> v[0] in v && (v + rest)[0] == v[0];
      assert v == "" ==> v + rest == rest;
    }
  }

  lemma {:induction false} PlainStops(v: string, rest: string)
    ensures Special(v) ==> ReadPlain(v + rest).0 != v
  {
    if v != "" {
      assert v == [v[0]] + v[1..] && (v + rest)[1..] == v[1..] + rest;
      if !(v[0] in {',', '"', '\n', '\r'}) {
        PlainStops(v[1..], rest);
      }
    }
  }

  lemma {:induction false} QuotedIsShorter(s: string)
    ensures ReadQuoted(s).Some? ==> |ReadQuoted(s).value.0| + |ReadQuoted(s).value.1| < |s|
    decreases |s|
  {
    if s != "" {
      if s[0] == '"' {
        if |s| > 1 && s[1] == '"' {
          QuotedIsShorter(s[2..]);
        }
      } else {
        QuotedIsShorter(s[1..]);
      }
    }
  }

  /** A field is put in quotes exactly when it would not read back without them. */
  lemma QuotedIffNeeded(v: string, rest: string)
    requires FieldEnd(rest)
    ensures EscapeField(v) == v <==> ReadField(v + rest) == Some((v, rest))
    ensures EscapeField(v) != v ==> EscapeField(v) == "\"" + (DoubleQuotes(v) + "\"")
  {
    hide ReadQuoted, ReadPlain, DoubleQuotes;
    if Special(v) {
      QuotedIsLonger(v);
      PlainStops(v, rest);
      var s := v + rest;
      if s != "" && s[0] == '"' {
        QuotedIsShorter(s[1..]);
      }
    } else {
      FieldReads(v, rest);
    }
  }

  lemma QuotedIsLonger(v: string)
    ensures |DoubleQuotes(v)| >= |v|
  {
  }

  lemma {:induction false} RecordReads(fields: seq<string>, rest: string)
    requires fields != [] && (rest == "" || rest[0] == '\n')
    ensures ReadRecord(PrintRow(fields) + rest) == Some((fields, rest))
  {
    hide EscapeField, ReadField;
    if |fields| == 1 {
      FieldReads(fields[0], rest);
      assert fields == [fields[0]];
    } else {
      var after := "," + (PrintRow(fields[1..]) + rest);
      FieldReads(fields[0], after);
      assert PrintRow(fields) + rest == EscapeField(fields[0]) + after;
      assert after[1..] == PrintRow(fields[1..]) + rest;
      RecordReads(fields[1..], rest);
      assert fields == [fields[0]] + fields[1..];
    }
  }

  /** A lone empty field in the last row prints nothing after the line break. */
  predicate LoneEmptyLast(rows: seq<seq<string>>) {
    |rows| > 1 && rows[|rows| - 1] == [""]
  }

  lemma {:induction false} RowPrintsNothing(fields: seq<string>)
    requires fields != []
    ensures PrintRow(fields) == "" <==> fields == [""]
  {
  }

  /** Reading back gives the rows, less a last row that is one empty field. */
  lemma {:induction false} FileReads(rows: seq<seq<string>>)
    requires rows != [] && forall r | r in rows :: r != []
    ensures ReadFile(ExportCsv(rows)) == Some(if LoneEmptyLast(rows) then rows[..|rows| - 1] else rows)
  {
    hide PrintRow, ReadRecord;
    assert rows == [rows[0]] + rows[1..] && rows[0] in rows;
    forall r | r in rows[1..] ensures r != [] {
      assert r in rows;
    }
    if |rows| == 1 {
      RecordReads(rows[0], "");
      assert PrintRow(rows[0]) + "" == PrintRow(rows[0]);
      assert rows == [rows[0]];
    } else {
      var after := "\n" + ExportCsv(rows[1..]);
      RecordReads(rows[0], after);
      assert after[1..] == ExportCsv(rows[1..]);
      if ExportCsv(rows[1..]) == "" {
        OnlyEmptyPrintsNothing(rows[1..]);
        assert rows == [rows[0], [""]];
      } else {
        FileReads(rows[1..]);
        assert rows[1] in rows;
        RowPrintsNothing(rows[1]);
        assert LoneEmptyLast(rows) <==> LoneEmptyLast(rows[1..]);
        assert rows[..|rows| - 1] == [rows[0]] + rows[1..][..|rows| - 2];
      }
    }
  }

  lemma OnlyEmptyPrintsNothing(rows: seq<seq<string>>)
    requires rows != [] && (forall r | r in rows :: r != []) && ExportCsv(rows) == ""
    ensures rows == [[""]]
  {
    hide PrintRow;
    assert rows[0] in rows;
    RowPrintsNothing(rows[0]);
  }

  /** For all field contents, quotes, commas, carriage returns and line feeds included: reading returns the
      rows exactly when the last of several rows is not one empty field. */
  lemma ReadsBackIff(rows: seq<seq<string>>)
    requires rows != [] && forall r | r in rows :: r != []
    ensures ReadFile(ExportCsv(rows)) == Some(rows) <==> !LoneEmptyLast(rows)
  {
    hide ReadFile, ExportCsv;
    FileReads(rows);
  }

  /** The dashboard's rows have eight fields, so they always read back. */
  lemma TablesReadBack(rows: seq<seq<string>>, columns: nat)
    requires rows != [] && columns > 1 && forall r | r in rows :: |r| == columns
    ensures ReadFile(ExportCsv(rows)) == Some(rows)
  {
    hide ReadFile, ExportCsv;
    FileReads(rows);
  }
}
