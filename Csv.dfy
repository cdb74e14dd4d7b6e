/**
 * The export as it is evidently meant to be read: every field that holds a
 * comma, a double quote or a line break is quoted as RFC 4180 (section 2)
 * describes, with inner quotes doubled. A reader that follows those rules
 * gets back exactly the header and the five fields of every result.
 */
module Csv {
  import opened Text
  import opened Screening
  import opened ResultsTable

  // ---- writing ----

  predicate NeedsQuoting(field: string) {
    ',' in field || '"' in field || '\n' in field || '\r' in field
  }

  /** Every double quote doubled. */
  function Escape(field: string): string
    decreases |field|
  {
    if |field| == 0 then ""
    else (if field[0] == '"' then "\"\"" else [field[0]]) + Escape(field[1..])
  }

  /** A field without double quotes is left as it is by escaping. */
  lemma {:induction false} EscapeWithoutQuotes(field: string)
    requires '"' !in field
    ensures Escape(field) == field
    decreases |field|
  {
    if |field| > 0 {
      assert field == [field[0]] + field[1..];
      assert '"' !in field[1..] by {
        forall c | c in field[1..] ensures c in field { }
      }
      EscapeWithoutQuotes(field[1..]);
    }
  }

  function QuoteField(field: string): string {
    if NeedsQuoting(field) then "\"" + Escape(field) + "\"" else field
  }

  /** A field without double quotes is written as it is, or wrapped in quotes when it holds a separator. */
  lemma QuoteFieldWithoutQuotes(field: string)
    requires '"' !in field
    ensures QuoteField(field) == if NeedsQuoting(field) then "\"" + field + "\"" else field
  {
    EscapeWithoutQuotes(field);
  }

  function QuotedFields(fields: seq<string>): seq<string> {
    seq(|fields|, i requires 0 <= i < |fields| => QuoteField(fields[i]))
  }

  function EncodeRecord(fields: seq<string>): string {
    Join(QuotedFields(fields), ",")
  }

  function EncodedRecords(rows: seq<seq<string>>): seq<string> {
    seq(|rows|, i requires 0 <= i < |rows| => EncodeRecord(rows[i]))
  }

  function EncodeRows(rows: seq<seq<string>>): string {
    Join(EncodedRecords(rows), "\n")
  }

  /** The export with quoting: the same header and fields as `CsvText`. */
  function QuotedCsvText(results: seq<ScreeningResult>, fmt: Formatter): string {
    EncodeRows(CsvTable(results, fmt))
  }

  /** The header, then the five fields of each result. */
  function CsvTable(results: seq<ScreeningResult>, fmt: Formatter): (rows: seq<seq<string>>)
    ensures |rows| == |results| + 1
  {
    [CsvHeaders] + seq(|results|, i requires 0 <= i < |results| => CsvFields(results[i], fmt))
  }

  // ---- reading ----

  /** A field's value and the text after it. */
  datatype FieldParse = FieldParse(value: string, rest: string)

  /** The inside of a quoted field, up to and past its closing quote. */
  function ParseQuoted(s: string): (p: FieldParse)
    ensures |p.rest| <= |s|
    decreases |s|
  {
    if |s| == 0 then FieldParse("", "")
    else if s[0] == '"' then
      if |s| > 1 && s[1] == '"' then
        var p := ParseQuoted(s[2..]);
        FieldParse("\"" + p.value, p.rest)
      else FieldParse("", s[1..])
    else
      var p := ParseQuoted(s[1..]);
      FieldParse([s[0]] + p.value, p.rest)
  }

  /** An unquoted field runs to the next comma or line break. */
  function ParseUnquoted(s: string): (p: FieldParse)
    ensures |p.rest| <= |s|
    decreases |s|
  {
    if |s| == 0 || s[0] == ',' || s[0] == '\n' then FieldParse("", s)
    else
      var p := ParseUnquoted(s[1..]);
      FieldParse([s[0]] + p.value, p.rest)
  }

  function ParseField(s: string): (p: FieldParse)
    ensures |p.rest| <= |s|
  {
    if |s| > 0 && s[0] == '"' then ParseQuoted(s[1..]) else ParseUnquoted(s)
  }

  /** A record's fields, the text after it, and whether a line break ended it. */
  datatype RecordParse = RecordParse(fields: seq<string>, rest: string, more: bool)

  function ParseRecord(s: string): (p: RecordParse)
    ensures |p.rest| <= |s|
    ensures p.more ==> |p.rest| < |s|
    decreases |s|
  {
    var f := ParseField(s);
    if |f.rest| > 0 && f.rest[0] == ',' then
      var p := ParseRecord(f.rest[1..]);
      RecordParse([f.value] + p.fields, p.rest, p.more)
    else if |f.rest| > 0 && f.rest[0] == '\n' then RecordParse([f.value], f.rest[1..], true)
    else RecordParse([f.value], f.rest, false)
  }

  function ParseRows(s: string): seq<seq<string>>
    decreases |s|
  {
    var p := ParseRecord(s);
    if p.more then [p.fields] + ParseRows(p.rest) else [p.fields]
  }

  // ---- the round trip ----

  /** What may follow a field: the end, a comma or a line break. */
  predicate FieldBoundary(t: string) {
    |t| == 0 || t[0] == ',' || t[0] == '\n'
  }

  lemma {:induction false} UnquotedRoundTrip(f: string, t: string)
    requires ',' !in f && '\n' !in f
    requires FieldBoundary(t)
    ensures ParseUnquoted(f + t) == FieldParse(f, t)
    decreases |f|
  {
    if |f| > 0 {
      assert (f + t)[1..] == f[1..] + t;
      UnquotedRoundTrip(f[1..], t);
      assert [f[0]] + f[1..] == f;
    } else {
      assert f + t == t;
    }
  }

  lemma {:induction false} QuotedRoundTrip(f: string, t: string)
    requires |t| == 0 || t[0] != '"'
    ensures ParseQuoted(Escape(f) + "\"" + t) == FieldParse(f, t)
    decreases |f|
  {
    var s := Escape(f) + "\"" + t;
    if |f| == 0 {
      assert s == "\"" + t && s[1..] == t;
    } else {
      var tail := Escape(f[1..]) + "\"" + t;
      QuotedRoundTrip(f[1..], t);
      assert [f[0]] + f[1..] == f;
      if f[0] == '"' {
        assert s == "\"\"" + tail && s[2..] == tail;
      } else {
        assert s == [f[0]] + tail && s[1..] == tail;
      }
    }
  }

  lemma QuotedFieldRoundTrip(f: string, t: string)
    requires NeedsQuoting(f) && FieldBoundary(t)
    ensures ParseField(QuoteField(f) + t) == FieldParse(f, t)
  {
    var s := QuoteField(f) + t;
    assert s == "\"" + (Escape(f) + "\"" + t);
    assert |s| > 0 && s[0] == '"';
    assert s[1..] == Escape(f) + "\"" + t;
    QuotedRoundTrip(f, t);
  }

  lemma PlainFieldRoundTrip(f: string, t: string)
    requires !NeedsQuoting(f) && FieldBoundary(t)
    ensures ParseField(QuoteField(f) + t) == FieldParse(f, t)
  {
    var s := f + t;
    if |f| > 0 {
      assert s[0] == f[0] && f[0] in f;
    } else {
      assert s == t;
    }
    assert !(|s| > 0 && s[0] == '"');
    UnquotedRoundTrip(f, t);
  }

  /** A written field, followed by the end, a comma or a line break, reads back as itself. */
  lemma FieldRoundTrip(f: string, t: string)
    requires FieldBoundary(t)
    ensures ParseField(QuoteField(f) + t) == FieldParse(f, t)
  {
    if NeedsQuoting(f) {
      QuotedFieldRoundTrip(f, t);
    } else {
      PlainFieldRoundTrip(f, t);
    }
  }

  /** A written record, followed by the end or a line break, reads back as its fields. */
  lemma {:induction false} RecordRoundTrip(fields: seq<string>, t: string)
    requires |fields| >= 1
    requires |t| == 0 || t[0] == '\n'
    ensures ParseRecord(EncodeRecord(fields) + t) ==
      RecordParse(fields, if |t| == 0 then "" else t[1..], |t| > 0)
    decreases |fields|
  {
    var q := QuotedFields(fields);
    if |fields| == 1 {
      FieldRoundTrip(fields[0], t);
    } else {
      assert q[1..] == QuotedFields(fields[1..]);
      var tail := EncodeRecord(fields[1..]) + t;
      assert EncodeRecord(fields) + t == QuoteField(fields[0]) + ("," + tail);
      FieldRoundTrip(fields[0], "," + tail);
      assert ("," + tail)[1..] == tail;
      RecordRoundTrip(fields[1..], t);
      assert [fields[0]] + fields[1..] == fields;
    }
  }

  /** Rows written with quoting read back unchanged, however their fields look. */
  lemma {:induction false} RowsRoundTrip(rows: seq<seq<string>>)
    requires |rows| >= 1
    requires forall i :: 0 <= i < |rows| ==> |rows[i]| >= 1
    ensures ParseRows(EncodeRows(rows)) == rows
    decreases |rows|
  {
    var e := EncodedRecords(rows);
    if |rows| == 1 {
      RecordRoundTrip(rows[0], "");
      assert EncodeRows(rows) == EncodeRecord(rows[0]) + "";
    } else {
      assert e[1..] == EncodedRecords(rows[1..]);
      var tail := EncodeRows(rows[1..]);
      assert EncodeRows(rows) == EncodeRecord(rows[0]) + ("\n" + tail);
      RecordRoundTrip(rows[0], "\n" + tail);
      assert ("\n" + tail)[1..] == tail;
      RowsRoundTrip(rows[1..]);
      assert [rows[0]] + rows[1..] == rows;
    }
  }

  /**
   * The quoted export reads back as the header and then, for each result
   * and in order, its five fields, even when names or skill lists hold
   * commas, quotes or line breaks.
   */
  lemma QuotedCsvRoundTrip(results: seq<ScreeningResult>, fmt: Formatter)
    ensures ParseRows(QuotedCsvText(results, fmt)) == CsvTable(results, fmt)
    ensures |ParseRows(QuotedCsvText(results, fmt))| == |results| + 1
    ensures ParseRows(QuotedCsvText(results, fmt))[0] == CsvHeaders
    ensures forall i :: 0 <= i < |results| ==>
      ParseRows(QuotedCsvText(results, fmt))[i + 1] == CsvFields(results[i], fmt)
  {
    RowsRoundTrip(CsvTable(results, fmt));
  }

  /** Records none of whose fields needs quoting are written as their plain comma-joined fields. */
  lemma EncodedRecordsUnchanged(rows: seq<seq<string>>)
    requires forall i, j :: 0 <= i < |rows| && 0 <= j < |rows[i]| ==> !NeedsQuoting(rows[i][j])
    ensures EncodedRecords(rows) == seq(|rows|, i requires 0 <= i < |rows| => Join(rows[i], ","))
  {
    forall i | 0 <= i < |rows| ensures EncodeRecord(rows[i]) == Join(rows[i], ",") {
      assert QuotedFields(rows[i]) == rows[i];
    }
  }

  lemma HeaderNeedsNoQuoting()
    ensures forall j :: 0 <= j < |CsvHeaders| ==> !NeedsQuoting(CsvHeaders[j])
  {
    HeaderAvoids(',');
    HeaderAvoids('"');
    HeaderAvoids('\n');
    assert forall j :: 0 <= j < |CsvHeaders| ==> '\r' !in CsvHeaders[j];
  }

  /** Where no field needs quoting, the quoted export is the current one, character for character. */
  lemma QuotingChangesNothingWhenUnneeded(results: seq<ScreeningResult>, fmt: Formatter)
    requires forall i, j :: 0 <= i < |results| && 0 <= j < 5 ==> !NeedsQuoting(CsvFields(results[i], fmt)[j])
    ensures QuotedCsvText(results, fmt) == CsvText(results, fmt)
  {
    var rows := CsvTable(results, fmt);
    var lines := CsvLines(results, fmt);
    HeaderNeedsNoQuoting();
    assert rows[0] == CsvHeaders;
    forall i | 1 <= i < |rows| ensures rows[i] == CsvFields(results[i - 1], fmt) && |rows[i]| == 5 {
    }
    EncodedRecordsUnchanged(rows);
    forall i | 0 <= i < |rows| ensures Join(rows[i], ",") == lines[i] {
      if i > 0 {
        assert lines[i] == CsvRow(results[i - 1], fmt);
      }
    }
    assert EncodedRecords(rows) == lines;
  }
}
