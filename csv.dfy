/**
 * `CsvExporter`: a header line, then one line per finding with ten double-quoted fields. Text
 * fields are escaped by doubling every '"', as section 2 rule 7 of RFC 4180 requires.
 *
 * The file is modelled by its contents. Two formatting calls are parameters: `cvss`, the text of
 * `(c * 10.0).to_string()` for an AI confidence `c`, and `rfc3339`, the text of a timestamp.
 */
module Csv {
  import opened Wrappers
  import opened Text
  import opened Types
  import opened Seqs

  /** `escape_csv`: every '"' doubled. */
  function Escape(s: string): string {
    ReplaceChar(s, '"', "\"\"")
  }

  /** Reading back an escaped text: every doubled '"' becomes one. */
  function Unescape(t: string): string {
    if t == [] then []
    else if |t| >= 2 && t[0] == '"' && t[1] == '"' then "\"" + Unescape(t[2..])
    else [t[0]] + Unescape(t[1..])
  }

  /** Escaping adds one character per '"'. */
  lemma EscapeLength(s: string)
    ensures |Escape(s)| == |s| + Count(s, '"')
  {
    ReplaceCharLength(s, '"', "\"\"");
  }

  /** Undoubling the quotes recovers the escaped text. */
  lemma {:induction false} EscapeRoundTrip(s: string)
    ensures Unescape(Escape(s)) == s
  {
    if s != [] {
      EscapeRoundTrip(s[1..]);
      var tail := Escape(s[1..]);
      if s[0] == '"' {
        assert Escape(s) == "\"\"" + tail;
        assert ("\"\"" + tail)[2..] == tail;
      } else {
        assert Escape(s) == [s[0]] + tail;
        assert ([s[0]] + tail)[1..] == tail;
      }
    }
  }

  /** A field between double quotes. */
  function Quote(f: string): string {
    "\"" + f + "\""
  }

  /** A line of quoted fields separated by commas. */
  function Record(fs: seq<string>): string
    requires |fs| > 0
  {
    if |fs| == 1 then Quote(fs[0]) + "\n" else Quote(fs[0]) + "," + Record(fs[1..])
  }

  /** Every field escaped. */
  function Escaped(fs: seq<string>): (r: seq<string>)
    ensures |r| == |fs| && forall i | 0 <= i < |fs| :: r[i] == Escape(fs[i])
  {
    seq(|fs|, i requires 0 <= i < |fs| => Escape(fs[i]))
  }

  /** The column names of the header line. */
  const Columns: seq<string> :=
    ["ID", "Type", "Severity", "URL", "Method", "Parameter", "Payload", "Description", "CVSS Score", "Timestamp"]

  /** Names joined by commas. */
  function JoinComma(names: seq<string>): string {
    if names == [] then [] else if |names| == 1 then names[0] else names[0] + "," + JoinComma(names[1..])
  }

  /**
   * The header line, without its line break:
   * `ID,Type,Severity,URL,Method,Parameter,Payload,Description,CVSS Score,Timestamp`.
   */
  const HeaderLine: string := JoinComma(Columns)

  /** A text cut at every comma. */
  function SplitComma(s: string): seq<string>
    decreases |s|
  {
    var i := IndexOf(s, ',');
    if i == |s| then [s] else [s[..i]] + SplitComma(s[i + 1..])
  }

  /** Names without commas joined by commas split back into the names. */
  lemma {:induction false} SplitJoin(names: seq<string>)
    requires |names| > 0
    requires forall k | 0 <= k < |names| :: ',' !in names[k]
    ensures SplitComma(JoinComma(names)) == names
  {
    var s := JoinComma(names);
    if |names| == 1 {
      assert s == names[0];
      assert IndexOf(s, ',') == |s|;
    } else {
      var rest := JoinComma(names[1..]);
      assert s == names[0] + ("," + rest);
      IndexOfAfter(names[0], "," + rest, ',');
      assert s[..|names[0]|] == names[0];
      assert s[|names[0]| + 1..] == rest;
      SplitJoin(names[1..]);
      assert [names[0]] + names[1..] == names;
    }
  }

  /** A character that is in no name and is not the comma is not in their join. */
  lemma {:induction false} JoinCommaFree(names: seq<string>, c: char)
    requires c != ','
    requires forall k | 0 <= k < |names| :: c !in names[k]
    ensures c !in JoinComma(names)
  {
    if |names| > 1 {
      JoinCommaFree(names[1..], c);
    }
  }

  /** The column names hold neither commas nor line breaks. */
  lemma ColumnsPlain()
    ensures forall k | 0 <= k < |Columns| :: ',' !in Columns[k] && '\n' !in Columns[k]
  {
  }

  /** The header line reads back as ten column names, in this order, on one line. */
  lemma HeaderColumns()
    ensures SplitComma(HeaderLine) == Columns && |Columns| == 10
    ensures '\n' !in HeaderLine
  {
    ColumnsPlain();
    SplitJoin(Columns);
    JoinCommaFree(Columns, '\n');
  }

  /** The parameter column: the parameter, or nothing. */
  function ParameterText(v: Vulnerability): string {
    match v.parameter
    case None => ""
    case Some(p) => p
  }

  /** The CVSS Score column: the scaled confidence, or "N/A". */
  function ScoreText(cvss: real -> string, v: Vulnerability): string {
    match v.aiConfidence
    case None => "N/A"
    case Some(c) => cvss(c)
  }

  /** The fields `export` writes for `v`: names, score and timestamp are written without escaping. */
  function Fields(cvss: real -> string, rfc3339: nat -> string, v: Vulnerability): seq<string> {
    [Escape(v.id), Escape(TypeName(v.vulnType)), SeverityName(v.severity), Escape(v.url),
      MethodName(v.httpMethod), Escape(ParameterText(v)), Escape(v.payload), Escape(v.description),
      ScoreText(cvss, v), rfc3339(v.timestamp)]
  }

  /** The line `export` writes for `v`. */
  function Row(cvss: real -> string, rfc3339: nat -> string, v: Vulnerability): string {
    Record(Fields(cvss, rfc3339, v))
  }

  /** The values the columns of `v`'s line stand for. */
  function Values(cvss: real -> string, rfc3339: nat -> string, v: Vulnerability): (r: seq<string>)
    ensures |r| == 10
  {
    [v.id, TypeName(v.vulnType), SeverityName(v.severity), v.url, MethodName(v.httpMethod), ParameterText(v),
      v.payload, v.description, ScoreText(cvss, v), rfc3339(v.timestamp)]
  }

  function Rows(cvss: real -> string, rfc3339: nat -> string, vs: seq<Vulnerability>): seq<string> {
    seq(|vs|, i requires 0 <= i < |vs| => Row(cvss, rfc3339, vs[i]))
  }

  /** The file `export` writes. */
  function Document(cvss: real -> string, rfc3339: nat -> string, vs: seq<Vulnerability>): string {
    HeaderLine + "\n" + Flatten(Rows(cvss, rfc3339, vs))
  }

  lemma AppendAssoc(a: string, b: string, c: string)
    ensures a + b + c == a + (b + c)
  {
  }

  /** `export`: the header, then one line per finding in order; file errors are not modelled. */
  method Export(cvss: real -> string, rfc3339: nat -> string, result: ScanResult) returns (contents: string)
    ensures contents == Document(cvss, rfc3339, result.vulnerabilities)
  {
    var vs := result.vulnerabilities;
    ghost var rows := Rows(cvss, rfc3339, vs);
    var head := HeaderLine + "\n";
    contents := head;
    var i := 0;
    while i < |vs|
      invariant 0 <= i <= |vs|
      invariant contents == head + Flatten(rows[..i])
    {
      var row := Row(cvss, rfc3339, vs[i]);
      assert row == rows[i];
      FlattenSnoc(rows, i);
      AppendAssoc(head, Flatten(rows[..i]), row);
      contents := contents + row;
      i := i + 1;
    }
    assert rows[..i] == rows;
  }

  // ---------------------------------------------------------------------------------------------
  // Reading the file back
  // ---------------------------------------------------------------------------------------------

  /**
   * Reads a quoted field's text after its opening quote: a doubled '"' stands for one, a single
   * '"' closes the field. Returns the value and what follows the closing quote.
   */
  function ReadField(t: string): (r: Option<(string, string)>)
    ensures r.Some? ==> |r.value.1| < |t|
  {
    if t == [] then None
    else if t[0] == '"' then
      if |t| >= 2 && t[1] == '"' then
        match ReadField(t[2..])
        case None => None
        case Some((v, rest)) => Some(("\"" + v, rest))
      else Some(("", t[1..]))
    else
      match ReadField(t[1..])
      case None => None
      case Some((v, rest)) => Some(([t[0]] + v, rest))
  }

  /** Reads one line of quoted fields separated by commas; returns the values and the next line. */
  function ReadRecord(t: string): (r: Option<(seq<string>, string)>)
    ensures r.Some? ==> |r.value.1| < |t|
    decreases |t|
  {
    if t == [] || t[0] != '"' then None
    else
      match ReadField(t[1..])
      case None => None
      case Some((v, rest)) =>
        if |rest| > 0 && rest[0] == '\n' then Some(([v], rest[1..]))
        else if |rest| > 0 && rest[0] == ',' then
          match ReadRecord(rest[1..])
          case None => None
          case Some((vs, after)) => Some(([v] + vs, after))
        else None
  }

  /** Reads lines of quoted fields up to the end of the text. */
  function ReadRecords(t: string): Option<seq<seq<string>>>
    decreases |t|
  {
    if t == [] then Some([])
    else
      match ReadRecord(t)
      case None => None
      case Some((fs, rest)) =>
        match ReadRecords(rest)
        case None => None
        case Some(rs) => Some([fs] + rs)
  }

  /** Reads a file: its first line as the header, then lines of quoted fields. */
  function ParseDocument(t: string): Option<(string, seq<seq<string>>)> {
    var i := IndexOf(t, '\n');
    if i == |t| then None
    else
      match ReadRecords(t[i + 1..])
      case None => None
      case Some(rs) => Some((t[..i], rs))
  }

  /** An escaped field followed by its closing quote reads back as the original text. */
  lemma {:induction false} ReadFieldEscape(s: string, rest: string)
    requires rest == [] || rest[0] != '"'
    ensures ReadField(Escape(s) + "\"" + rest) == Some((s, rest))
  {
    var t := Escape(s) + "\"" + rest;
    if s == [] {
      assert t == "\"" + rest;
      assert t[1..] == rest;
    } else {
      ReadFieldEscape(s[1..], rest);
      var tail := Escape(s[1..]) + "\"" + rest;
      if s[0] == '"' {
        assert Escape(s) == "\"\"" + Escape(s[1..]);
        assert t == "\"\"" + tail;
        assert t[2..] == tail;
        assert "\"" + s[1..] == s;
      } else {
        assert Escape(s) == [s[0]] + Escape(s[1..]);
        assert t == [s[0]] + tail;
        assert t[1..] == tail;
        assert [s[0]] + s[1..] == s;
      }
    }
  }

  /** A last quoted field, once read, ends the line. */
  lemma ReadLast(f: string, v: string, after: string)
    requires ReadField(f + "\"" + ("\n" + after)) == Some((v, "\n" + after))
    ensures ReadRecord("\"" + (f + "\"" + ("\n" + after))) == Some(([v], after))
  {
    var t := "\"" + (f + "\"" + ("\n" + after));
    assert t[1..] == f + "\"" + ("\n" + after);
    assert ("\n" + after)[1..] == after;
  }

  /** A quoted field followed by a comma is read before the rest of the line. */
  lemma ReadMore(f: string, v: string, next: string, vs: seq<string>, after: string)
    requires ReadField(f + "\"" + ("," + next)) == Some((v, "," + next))
    requires ReadRecord(next) == Some((vs, after))
    ensures ReadRecord("\"" + (f + "\"" + ("," + next))) == Some(([v] + vs, after))
  {
    var t := "\"" + (f + "\"" + ("," + next));
    assert t[1..] == f + "\"" + ("," + next);
    assert ("," + next)[1..] == next;
  }

  /** A line of escaped fields reads back as the fields' original values. */
  lemma {:induction false} ReadRecordRoundTrip(vals: seq<string>, after: string)
    requires |vals| > 0
    ensures ReadRecord(Record(Escaped(vals)) + after) == Some((vals, after))
    decreases |vals|
  {
    var e := Escaped(vals);
    var f := Escape(vals[0]);
    if |vals| == 1 {
      assert Record(e) + after == "\"" + (f + "\"" + ("\n" + after));
      ReadFieldEscape(vals[0], "\n" + after);
      ReadLast(f, vals[0], after);
      assert [vals[0]] == vals;
    } else {
      var next := Record(e[1..]) + after;
      assert Record(e) + after == "\"" + (f + "\"" + ("," + next));
      ReadFieldEscape(vals[0], "," + next);
      assert e[1..] == Escaped(vals[1..]);
      ReadRecordRoundTrip(vals[1..], after);
      ReadMore(f, vals[0], next, vals[1..], after);
      assert [vals[0]] + vals[1..] == vals;
    }
  }

  /** Flattening a list with a first element starts with that element. */
  lemma FlattenCons(x: string, xs: seq<string>)
    ensures Flatten([x] + xs) == x + Flatten(xs)
  {
    FlattenAppend([x], xs);
    assert [x][..0] == [];
  }

  /** Lines of escaped fields read back, line by line, as the values they were made of. */
  lemma {:induction false} ReadRecordsRoundTrip(rows: seq<seq<string>>)
    requires forall i | 0 <= i < |rows| :: |rows[i]| > 0
    ensures ReadRecords(Flatten(seq(|rows|, i requires 0 <= i < |rows| => Record(Escaped(rows[i]))))) == Some(rows)
    decreases |rows|
  {
    var lines := seq(|rows|, i requires 0 <= i < |rows| => Record(Escaped(rows[i])));
    if rows != [] {
      var restLines := seq(|rows| - 1, i requires 0 <= i < |rows| - 1 => Record(Escaped(rows[1..][i])));
      assert lines == [lines[0]] + restLines;
      FlattenCons(lines[0], restLines);
      ReadRecordRoundTrip(rows[0], Flatten(restLines));
      ReadRecordsRoundTrip(rows[1..]);
      assert [rows[0]] + rows[1..] == rows;
    }
  }

  /** The written fields are the escaped values. */
  lemma FieldsEscaped(cvss: real -> string, rfc3339: nat -> string, v: Vulnerability)
    requires '"' !in ScoreText(cvss, v) && '"' !in rfc3339(v.timestamp)
    ensures Fields(cvss, rfc3339, v) == Escaped(Values(cvss, rfc3339, v))
  {
    var vals := Values(cvss, rfc3339, v);
    var sn := SeverityName(v.severity);
    var mn := MethodName(v.httpMethod);
    var sc := ScoreText(cvss, v);
    var ts := rfc3339(v.timestamp);
    UnquotedEscape(sn);
    UnquotedEscape(mn);
    UnquotedEscape(sc);
    UnquotedEscape(ts);
    EscapedTen(vals);
  }

  lemma EscapedTen(xs: seq<string>)
    requires |xs| == 10
    ensures Escaped(xs) == [Escape(xs[0]), Escape(xs[1]), Escape(xs[2]), Escape(xs[3]), Escape(xs[4]),
      Escape(xs[5]), Escape(xs[6]), Escape(xs[7]), Escape(xs[8]), Escape(xs[9])]
  {
    var r := Escaped(xs);
    var t := [Escape(xs[0]), Escape(xs[1]), Escape(xs[2]), Escape(xs[3]), Escape(xs[4]),
      Escape(xs[5]), Escape(xs[6]), Escape(xs[7]), Escape(xs[8]), Escape(xs[9])];
    forall k | 0 <= k < 10 ensures r[k] == t[k] {
      assert r[k] == Escape(xs[k]);
    }
  }

  /** Escaping leaves a text without '"' as it is. */
  lemma UnquotedEscape(s: string)
    requires '"' !in s
    ensures Escape(s) == s
  {
  }

  /**
   * Each line holds ten quoted fields: the finding's values, with "" for a missing parameter and
   * "N/A" for a missing confidence, provided the formatted score and timestamp hold no '"'.
   */
  lemma RowFields(cvss: real -> string, rfc3339: nat -> string, v: Vulnerability)
    requires '"' !in ScoreText(cvss, v) && '"' !in rfc3339(v.timestamp)
    ensures Row(cvss, rfc3339, v) == Record(Escaped(Values(cvss, rfc3339, v)))
    ensures ReadRecord(Row(cvss, rfc3339, v)) == Some((Values(cvss, rfc3339, v), []))
  {
    var vals := Values(cvss, rfc3339, v);
    FieldsEscaped(cvss, rfc3339, v);
    ReadRecordRoundTrip(vals, []);
    assert Record(Escaped(vals)) + [] == Record(Escaped(vals));
  }

  /** A missing parameter gives an empty column and a missing confidence the text "N/A". */
  lemma MissingValues(cvss: real -> string, rfc3339: nat -> string, v: Vulnerability)
    ensures Values(cvss, rfc3339, v)[5] == "" <==> v.parameter.None? || v.parameter == Some("")
    ensures v.aiConfidence.None? ==> Values(cvss, rfc3339, v)[8] == "N/A"
    ensures v.aiConfidence.Some? ==> Values(cvss, rfc3339, v)[8] == cvss(v.aiConfidence.value)
  {
  }

  /**
   * The exported file reads back as the header line and, for every finding in order, the values
   * of its ten columns, when formatted scores and timestamps hold no '"'.
   */
  lemma DocumentRoundTrip(cvss: real -> string, rfc3339: nat -> string, vs: seq<Vulnerability>)
    requires forall i | 0 <= i < |vs| :: '"' !in ScoreText(cvss, vs[i]) && '"' !in rfc3339(vs[i].timestamp)
    ensures ParseDocument(Document(cvss, rfc3339, vs)) ==
      Some((HeaderLine, seq(|vs|, i requires 0 <= i < |vs| => Values(cvss, rfc3339, vs[i]))))
  {
    var rows := seq(|vs|, i requires 0 <= i < |vs| => Values(cvss, rfc3339, vs[i]));
    var lines := seq(|rows|, i requires 0 <= i < |rows| => Record(Escaped(rows[i])));
    forall i | 0 <= i < |vs|
      ensures Row(cvss, rfc3339, vs[i]) == lines[i]
    {
      FieldsEscaped(cvss, rfc3339, vs[i]);
    }
    assert Rows(cvss, rfc3339, vs) == lines;
    ReadRecordsRoundTrip(rows);
    HeaderColumns();
    ParseAfterHeader(HeaderLine, Flatten(lines));
  }

  /** A file whose first line is `h` reads back as `h` and the records after it. */
  lemma ParseAfterHeader(h: string, body: string)
    requires '\n' !in h
    ensures ReadRecords(body).Some? ==> ParseDocument(h + "\n" + body) == Some((h, ReadRecords(body).value))
  {
    IndexOfAfter(h, "\n" + body, '\n');
    var d := h + "\n" + body;
    assert d == h + ("\n" + body);
    assert d[..|h|] == h;
    assert d[|h| + 1..] == body;
  }
}
