/**
 * The CSV export of the analytics dashboard (components/AnalyticsDashboard.tsx):
 * `toCsvValue` escapes one cell, cells are joined with `,` and rows with `\n`.
 * The reader below follows the grammar of section 2 of RFC 4180 for one record
 * (escaped fields in double quotes with `""` for a quote, non-escaped fields free
 * of commas, quotes and line breaks); it is what the round trips are stated against.
 */
module CsvExport {
  import opened Wrappers
  import opened Strings

  /** `value.replace(/"/g, '""')`. */
  function DoubleQuotes(s: string): string {
    ReplaceChar(s, '"', "\"\"")
  }

  /** `toCsvValue`: quoted, with quotes doubled, when the value holds a comma or a quote. */
  function CsvValue(value: string): (r: string)
    ensures ',' !in value && '"' !in value ==> r == value
    ensures ',' in value || '"' in value ==> r == "\"" + DoubleQuotes(value) + "\""
  {
    if ',' in value || '"' in value then "\"" + DoubleQuotes(value) + "\"" else value
  }

  /** One exported line: `row.map(toCsvValue).join(",")`. */
  function CsvRow(cells: seq<string>): string {
    Join(CsvValues(cells), ",")
  }

  function CsvValues(cells: seq<string>): (r: seq<string>)
    ensures |r| == |cells| && forall i :: 0 <= i < |cells| ==> r[i] == CsvValue(cells[i])
  {
    seq(|cells|, i requires 0 <= i < |cells| => CsvValue(cells[i]))
  }

  /** The exported text: `[header, ...rows].map(...).join("\n")`, without the byte order mark. */
  function CsvDocument(rows: seq<seq<string>>): string {
    Join(CsvRows(rows), "\n")
  }

  function CsvRows(rows: seq<seq<string>>): (r: seq<string>)
    ensures |r| == |rows| && forall i :: 0 <= i < |rows| ==> r[i] == CsvRow(rows[i])
  {
    seq(|rows|, i requires 0 <= i < |rows| => CsvRow(rows[i]))
  }

  // ---------------------------------------------------------------------------
  // Reading a record back.

  /** A non-escaped field: text up to the next comma or the end; quotes and line breaks are not allowed. */
  function ParsePlain(s: string): (r: Option<(string, string)>)
    ensures r.Some? ==> |r.value.1| <= |s| && (r.value.1 == [] || r.value.1[0] == ',')
  {
    if s == [] || s[0] == ',' then Some(("", s))
    else if s[0] == '"' || s[0] == '\r' || s[0] == '\n' then None
    else match ParsePlain(s[1..])
      case None => None
      case Some((f, rest)) => Some(([s[0]] + f, rest))
  }

  /** An escaped field after its opening quote: `""` stands for a quote, a lone quote ends the field. */
  function ParseQuoted(s: string): (r: Option<(string, string)>)
    ensures r.Some? ==> |r.value.1| < |s| && (r.value.1 == [] || r.value.1[0] == ',')
  {
    if s == [] then None
    else if s[0] == '"' then
      if |s| >= 2 && s[1] == '"' then
        match ParseQuoted(s[2..])
        case None => None
        case Some((f, rest)) => Some(("\"" + f, rest))
      else if |s| == 1 || s[1] == ',' then Some(("", s[1..]))
      else None
    else match ParseQuoted(s[1..])
      case None => None
      case Some((f, rest)) => Some(([s[0]] + f, rest))
  }

  /** One field and the input left after it (empty, or starting with the separating comma). */
  function ParseField(s: string): (r: Option<(string, string)>)
    ensures r.Some? ==> |r.value.1| <= |s| && (r.value.1 == [] || r.value.1[0] == ',')
  {
    if s != [] && s[0] == '"' then ParseQuoted(s[1..]) else ParsePlain(s)
  }

  /** The fields of one record, or `None` when the text breaks the grammar. */
  function ParseRecord(s: string): (r: Option<seq<string>>)
    ensures r.Some? ==> |r.value| >= 1
    decreases |s|
  {
    match ParseField(s)
    case None => None
    case Some((f, rest)) =>
      if rest == [] then Some([f])
      else match ParseRecord(rest[1..])
        case None => None
        case Some(fs) => Some([f] + fs)
  }

  /** A whole export read back: one record per line. */
  function ReadCsv(text: string): seq<Option<seq<string>>> {
    var lines := Split(text, {'\n'});
    seq(|lines|, i requires 0 <= i < |lines| => ParseRecord(lines[i]))
  }

  // ---------------------------------------------------------------------------
  // Round trips.

  /** The field ends where the input continues with a separator or stops. */
  predicate FieldEnd(tail: string) {
    tail == [] || tail[0] == ','
  }

  lemma {:induction false} PlainRoundTrip(c: string, tail: string)
    requires ',' !in c && '"' !in c && '\r' !in c && '\n' !in c
    requires FieldEnd(tail)
    ensures ParsePlain(c + tail) == Some((c, tail))
  {
    if c == [] {
      assert c + tail == tail;
    } else {
      assert c == [c[0]] + c[1..];
      assert (c + tail)[0] == c[0];
      assert (c + tail)[1..] == c[1..] + tail;
      PlainRoundTrip(c[1..], tail);
    }
  }

  lemma {:induction false} QuotedRoundTrip(c: string, tail: string)
    requires FieldEnd(tail)
    ensures ParseQuoted(DoubleQuotes(c) + "\"" + tail) == Some((c, tail))
  {
    if c == [] {
      assert DoubleQuotes(c) + "\"" + tail == "\"" + tail;
    } else {
      var rest := DoubleQuotes(c[1..]) + "\"" + tail;
      QuotedRoundTrip(c[1..], tail);
      var head := if c[0] == '"' then "\"\"" else [c[0]];
      assert DoubleQuotes(c) == head + DoubleQuotes(c[1..]);
      assert DoubleQuotes(c) + "\"" + tail == head + rest;
      if c[0] == '"' {
        QuotedStepQuote(rest, c[1..], tail);
      } else {
        QuotedStepChar(c[0], rest, c[1..], tail);
      }
      assert c == [c[0]] + c[1..];
    }
  }

  lemma QuotedStepQuote(rest: string, f: string, tail: string)
    requires ParseQuoted(rest) == Some((f, tail))
    ensures ParseQuoted("\"\"" + rest) == Some(("\"" + f, tail))
  {
    assert ("\"\"" + rest)[2..] == rest;
  }

  lemma QuotedStepChar(x: char, rest: string, f: string, tail: string)
    requires x != '"'
    requires ParseQuoted(rest) == Some((f, tail))
    ensures ParseQuoted([x] + rest) == Some(([x] + f, tail))
  {
    assert ([x] + rest)[1..] == rest;
  }

  /** What the escaping must be given for a cell to read back: a line break only inside quotes. */
  predicate CsvSafe(c: string) {
    ',' in c || '"' in c || ('\r' !in c && '\n' !in c)
  }

  /**
   * Rules 6 and 7 of section 2 of RFC 4180 read back: an escaped cell, followed by a
   * separator or the end, parses as the cell.
   */
  lemma FieldRoundTrip(c: string, tail: string)
    requires CsvSafe(c)
    requires FieldEnd(tail)
    ensures ParseField(CsvValue(c) + tail) == Some((c, tail))
  {
    if ',' in c || '"' in c {
      QuotedFieldRoundTrip(c, tail);
    } else {
      PlainFieldRoundTrip(c, tail);
    }
  }

  lemma QuotedFieldRoundTrip(c: string, tail: string)
    requires ',' in c || '"' in c
    requires FieldEnd(tail)
    ensures ParseField(CsvValue(c) + tail) == Some((c, tail))
  {
    var s := CsvValue(c) + tail;
    assert s == "\"" + (DoubleQuotes(c) + "\"" + tail);
    QuotedRoundTrip(c, tail);
  }

  lemma PlainFieldRoundTrip(c: string, tail: string)
    requires ',' !in c && '"' !in c && '\r' !in c && '\n' !in c
    requires FieldEnd(tail)
    ensures ParseField(CsvValue(c) + tail) == Some((c, tail))
  {
    PlainRoundTrip(c, tail);
    if c != [] {
      assert c[0] in c;
      assert (c + tail)[0] == c[0];
    }
  }

  /** An exported line parses back into its cells. */
  lemma {:induction false} RecordRoundTrip(cells: seq<string>)
    requires |cells| >= 1
    requires forall i :: 0 <= i < |cells| ==> CsvSafe(cells[i])
    ensures ParseRecord(CsvRow(cells)) == Some(cells)
  {
    var vs := CsvValues(cells);
    if |cells| == 1 {
      assert CsvRow(cells) == CsvValue(cells[0]) + "";
      FieldRoundTrip(cells[0], "");
      assert cells == [cells[0]];
    } else {
      var rest := CsvRow(cells[1..]);
      assert CsvValues(cells[1..]) == vs[1..];
      assert CsvRow(cells) == CsvValue(cells[0]) + ("," + rest);
      FieldRoundTrip(cells[0], "," + rest);
      assert ("," + rest)[1..] == rest;
      RecordRoundTrip(cells[1..]);
      assert cells == [cells[0]] + cells[1..];
    }
  }

  /** A cell without line breaks gives an escaped cell without line breaks. */
  lemma NoBreakInValue(c: string)
    requires '\n' !in c
    ensures '\n' !in CsvValue(c)
  {
    if ',' in c || '"' in c {
      NoBreakInReplace(c, '"', "\"\"");
    }
  }

  lemma {:induction false} NoBreakInReplace(s: string, c: char, t: string)
    requires '\n' !in s && '\n' !in t
    ensures '\n' !in ReplaceChar(s, c, t)
  {
    if s != [] {
      NoBreakInReplace(s[1..], c, t);
    }
  }

  lemma {:induction false} NoBreakInJoin(parts: seq<string>, sep: string)
    requires '\n' !in sep
    requires forall i :: 0 <= i < |parts| ==> '\n' !in parts[i]
    ensures '\n' !in Join(parts, sep)
  {
    if |parts| >= 2 {
      NoBreakInJoin(parts[1..], sep);
    }
  }

  lemma NoBreakInRow(cells: seq<string>)
    requires forall i :: 0 <= i < |cells| ==> '\n' !in cells[i]
    ensures '\n' !in CsvRow(cells)
  {
    var vs := CsvValues(cells);
    forall i | 0 <= i < |vs| ensures '\n' !in vs[i] {
      NoBreakInValue(cells[i]);
    }
    NoBreakInJoin(vs, ",");
  }

  /** A cell of a row, free of line breaks. */
  predicate SingleLine(c: string) {
    '\r' !in c && '\n' !in c
  }

  /** The whole export, when no cell holds a line break, reads back row by row. */
  lemma DocumentRoundTrip(rows: seq<seq<string>>)
    requires |rows| >= 1
    requires forall i :: 0 <= i < |rows| ==> |rows[i]| >= 1
    requires forall i, j :: 0 <= i < |rows| && 0 <= j < |rows[i]| ==> SingleLine(rows[i][j])
    ensures |ReadCsv(CsvDocument(rows))| == |rows|
    ensures forall i :: 0 <= i < |rows| ==> ReadCsv(CsvDocument(rows))[i] == Some(rows[i])
  {
    var lines := CsvRows(rows);
    forall k | 0 <= k < |lines| ensures '\n' !in lines[k] {
      NoBreakInRow(rows[k]);
    }
    SplitJoin(lines, '\n');
    forall i | 0 <= i < |rows| ensures ParseRecord(lines[i]) == Some(rows[i]) {
      RecordRoundTrip(rows[i]);
    }
  }

  /**
   * The deviation from rule 6: a cell holding a line break but no comma or quote is
   * not quoted, so the export of that one cell reads back as two records.
   */
  lemma LineBreakSplitsRecord()
    ensures CsvValue("a\nb") == "a\nb"
    ensures |ReadCsv(CsvDocument([["a\nb"]]))| == 2
  {
    assert CsvValues(["a\nb"]) == ["a\nb"];
    assert CsvRows([["a\nb"]]) == ["a\nb"];
    assert CsvDocument([["a\nb"]]) == "a\nb";
    assert FirstIndexIn("a\nb", {'\n'}) == 1;
    assert "a\nb"[2..] == "b";
    assert FirstIndexIn("b", {'\n'}) == 1;
    assert Split("b", {'\n'}) == ["b"];
    assert "a\nb"[..1] == "a";
    assert Split("a\nb", {'\n'}) == ["a", "b"];
  }
}
