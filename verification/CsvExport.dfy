// The inventory's CSV export, and an independent reader for the format of
// section 2 of RFC 4180.
module CsvExport {
  import opened Prelude

  // ------------------------------------------------------------------ the export

  datatype Certificate = Certificate(
    commonName: string,
    sans: seq<string>,
    caProvider: string,
    status: string,
    notAfter: string,
    owningTeam: string,
    autoRenew: bool)

  const HEADER: seq<string> := ["common_name", "sans", "ca_provider", "status", "not_after", "owning_team",
                               "auto_renew"]

  function Join(parts: seq<string>, separator: string): string {
    if parts == [] then "" else if |parts| == 1 then parts[0] else parts[0] + separator + Join(parts[1..], separator)
  }

  function DoubleQuotes(v: string): string {
    if v == "" then "" else (if v[0] == '"' then ['"', '"'] else [v[0]]) + DoubleQuotes(v[1..])
  }

  function PrintField(v: string): string { ['"'] + DoubleQuotes(v) + ['"'] }

  function PrintFields(row: seq<string>): seq<string> {
    seq(|row|, i requires 0 <= i < |row| => PrintField(row[i]))
  }

  function PrintRow(row: seq<string>): string { Join(PrintFields(row), ",") }

  function PrintRows(rows: seq<seq<string>>): seq<string> {
    seq(|rows|, i requires 0 <= i < |rows| => PrintRow(rows[i]))
  }

  function Print(rows: seq<seq<string>>): string { Join(PrintRows(rows), "\r\n") }

  function RowOf(c: Certificate): seq<string> {
    [c.commonName, Join(c.sans, ";"), c.caProvider, c.status, c.notAfter, c.owningTeam,
     if c.autoRenew then "true" else "false"]
  }

  function RowsOf(certs: seq<Certificate>): seq<seq<string>> {
    seq(|certs|, i requires 0 <= i < |certs| => RowOf(certs[i]))
  }

  function Export(certs: seq<Certificate>): string { Print([HEADER] + RowsOf(certs)) }

  // ------------------------------------------------------------------ the reader

  predicate StartsWith(s: string, c: char) { s != "" && s[0] == c }

  predicate StartsWithBreak(s: string) { |s| >= 2 && s[0] == '\r' && s[1] == '\n' }

  predicate EndOfRecord(rest: string) { rest == "" || StartsWithBreak(rest) }

  // The rest of a quoted field, after its opening quote.
  function ReadQuoted(s: string): (r: Option<(string, string)>)
    ensures r.Some? ==> |r.value.1| < |s|
  {
    if s == "" then None
    else if s[0] != '"' then
      match ReadQuoted(s[1..])
      case None => None
      case Some((v, rest)) => Some(([s[0]] + v, rest))
    else if StartsWith(s[1..], '"') then
      match ReadQuoted(s[2..])
      case None => None
      case Some((v, rest)) => Some((['"'] + v, rest))
    else Some(("", s[1..]))
  }

  // A field without quotes ends before a comma or a line break.
  function ReadPlain(s: string): (r: Option<(string, string)>)
    ensures r.Some? ==> |r.value.1| <= |s|
  {
    if s == "" || s[0] == ',' || StartsWithBreak(s) then Some(("", s))
    else if s[0] == '"' || s[0] == '\r' || s[0] == '\n' then None
    else
      match ReadPlain(s[1..])
      case None => None
      case Some((v, rest)) => Some(([s[0]] + v, rest))
  }

  function ReadField(s: string): (r: Option<(string, string)>)
    ensures r.Some? ==> |r.value.1| <= |s|
  {
    if StartsWith(s, '"') then ReadQuoted(s[1..]) else ReadPlain(s)
  }

  function ReadRecord(s: string): (r: Option<(seq<string>, string)>)
    ensures r.Some? ==> |r.value.1| <= |s| && EndOfRecord(r.value.1)
    decreases |s|
  {
    match ReadField(s)
    case None => None
    case Some((field, rest)) =>
      if StartsWith(rest, ',') then
        match ReadRecord(rest[1..])
        case None => None
        case Some((fields, last)) => Some(([field] + fields, last))
      else if EndOfRecord(rest) then Some(([field], rest))
      else None
  }

  // Records separated by line breaks; the last one may end with a break.
  function ReadFile(s: string): Option<seq<seq<string>>>
    decreases |s|
  {
    match ReadRecord(s)
    case None => None
    case Some((record, rest)) =>
      if rest == "" || rest == "\r\n" then Some([record])
      else
        match ReadFile(rest[2..])
        case None => None
        case Some(records) => Some([record] + records)
  }

  // -------------------------------------------------------------- the round trip

  // One more character in front of a quoted text.
  lemma OneMoreCharacter(c: char, tail: string, v: string, rest: string)
    requires ReadQuoted(tail) == Some((v, rest))
    ensures ReadQuoted((if c == '"' then ['"', '"'] else [c]) + tail) == Some(([c] + v, rest))
  {
    if c == '"' {
      assert (['"', '"'] + tail)[2..] == tail;
    } else {
      assert ([c] + tail)[1..] == tail;
    }
  }

  lemma ClosingQuote(rest: string)
    requires !StartsWith(rest, '"')
    ensures ReadQuoted(['"'] + rest) == Some(("", rest))
  {
    assert (['"'] + rest)[1..] == rest;
  }

  lemma QuotedText(v: string, rest: string)
    requires v != ""
    ensures DoubleQuotes(v) + ['"'] + rest ==
            (if v[0] == '"' then ['"', '"'] else [v[0]]) + (DoubleQuotes(v[1..]) + ['"'] + rest)
  {
  }

  lemma {:induction false} QuotedFieldReadsBack(v: string, rest: string)
    requires !StartsWith(rest, '"')
    ensures ReadQuoted(DoubleQuotes(v) + ['"'] + rest) == Some((v, rest))
  {
    if v == "" {
      ClosingQuote(rest);
      assert DoubleQuotes(v) + ['"'] == ['"'];
    } else {
      QuotedFieldReadsBack(v[1..], rest);
      OneMoreCharacter(v[0], DoubleQuotes(v[1..]) + ['"'] + rest, v[1..], rest);
      QuotedText(v, rest);
      assert v == [v[0]] + v[1..];
    }
  }

  lemma FieldReadsBack(v: string, rest: string)
    requires !StartsWith(rest, '"')
    ensures ReadField(PrintField(v) + rest) == Some((v, rest))
  {
    QuotedFieldReadsBack(v, rest);
    assert (PrintField(v) + rest)[1..] == DoubleQuotes(v) + ['"'] + rest;
  }

  lemma {:induction false} RecordReadsBack(row: seq<string>, rest: string)
    requires row != [] && EndOfRecord(rest)
    ensures ReadRecord(PrintRow(row) + rest) == Some((row, rest))
  {
    var v := row[0];
    if |row| == 1 {
      assert PrintFields(row) == [PrintField(v)];
      FieldReadsBack(v, rest);
      assert row == [v];
    } else {
      assert PrintFields(row)[1..] == PrintFields(row[1..]);
      var tail := PrintRow(row[1..]) + rest;
      assert PrintRow(row) + rest == PrintField(v) + ("," + tail);
      FieldReadsBack(v, "," + tail);
      RecordReadsBack(row[1..], rest);
      assert ("," + tail)[1..] == tail;
      assert row == [v] + row[1..];
    }
  }

  lemma RowIsNotEmpty(row: seq<string>)
    requires row != []
    ensures |PrintRow(row)| > 0
  {
    assert PrintFields(row)[0] == PrintField(row[0]);
  }

  // A record, a line break and a text that reads as further records.
  lemma OneMoreRecord(row: seq<string>, text: string, rows: seq<seq<string>>)
    requires row != [] && text != "" && ReadFile(text) == Some(rows)
    ensures ReadFile(PrintRow(row) + ("\r\n" + text)) == Some([row] + rows)
  {
    var rest := "\r\n" + text;
    RecordReadsBack(row, rest);
    assert rest[2..] == text;
  }

  lemma PrintedRow(rows: seq<seq<string>>)
    requires |rows| > 1
    ensures Print(rows) == PrintRow(rows[0]) + ("\r\n" + Print(rows[1..]))
  {
    assert PrintRows(rows)[1..] == PrintRows(rows[1..]);
  }

  lemma {:induction false} FileReadsBack(rows: seq<seq<string>>)
    requires rows != [] && forall i :: 0 <= i < |rows| ==> rows[i] != []
    ensures ReadFile(Print(rows)) == Some(rows) && |Print(rows)| > 0
  {
    RowIsNotEmpty(rows[0]);
    if |rows| == 1 {
      assert PrintRows(rows) == [PrintRow(rows[0])];
      RecordReadsBack(rows[0], "");
      assert PrintRow(rows[0]) + "" == PrintRow(rows[0]);
      assert rows == [rows[0]];
    } else {
      FileReadsBack(rows[1..]);
      PrintedRow(rows);
      OneMoreRecord(rows[0], Print(rows[1..]), rows[1..]);
      assert rows == [rows[0]] + rows[1..];
    }
  }

  // Column k of the export has this heading.
  predicate Heads(k: nat, heading: string) { k < |HEADER| && HEADER[k] == heading }

  /** Under each heading stands that field. */
  lemma ColumnsMatchHeadings(c: Certificate, k: nat)
    requires k < |HEADER|
    ensures |RowOf(c)| == |HEADER|
    ensures Heads(k, "common_name") ==> RowOf(c)[k] == c.commonName
    ensures Heads(k, "sans") ==> RowOf(c)[k] == Join(c.sans, ";")
    ensures Heads(k, "ca_provider") ==> RowOf(c)[k] == c.caProvider
    ensures Heads(k, "status") ==> RowOf(c)[k] == c.status
    ensures Heads(k, "not_after") ==> RowOf(c)[k] == c.notAfter
    ensures Heads(k, "owning_team") ==> RowOf(c)[k] == c.owningTeam
    ensures Heads(k, "auto_renew") ==> RowOf(c)[k] == if c.autoRenew then "true" else "false"
    ensures HEADER == ["common_name", "sans", "ca_provider", "status", "not_after", "owning_team", "auto_renew"]
  {
  }

  /** Whatever quotes, commas and line breaks the fields contain, reading the
      export gives back the header and one row per certificate. */
  lemma ExportReadsBack(certs: seq<Certificate>)
    ensures ReadFile(Export(certs)) == Some([HEADER] + RowsOf(certs))
  {
    FileReadsBack([HEADER] + RowsOf(certs));
  }
}
