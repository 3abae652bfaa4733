/** CSV and Excel-CSV text built from a list of records: a header line of
    the first record's keys, then one line per record, with the field
    quoting of section 2 of RFC 4180 applied to strings holding a comma or a
    double quote, lines separated by "\n". */
module DataExporter {
  import opened Wrappers
  import opened JsText

  /** The values a record field can hold. */
  datatype JsValue = Str(s: string) | Number(n: real) | Bool(b: bool) | Null | Undefined

  /** A record: its keys in `Object.keys` order, each with its value. The
      keys are distinct, as the property names of an object are. */
  type Record = seq<(string, JsValue)>

  datatype ExportOptions = ExportOptions(filename: Option<string>, includeTimestamp: Option<bool>)

  const NoData := "No data to export"
  const Bom := "\U{FEFF}"

  function Keys(row: Record): (r: seq<string>)
    ensures |r| == |row|
    ensures forall i :: 0 <= i < |row| ==> r[i] == row[i].0
  {
    seq(|row|, i requires 0 <= i < |row| => row[i].0)
  }

  /** `row[key]`: the value under the first matching key, `undefined` when absent. */
  function Lookup(row: Record, key: string): (v: JsValue)
    ensures key !in Keys(row) ==> v == Undefined
    decreases |row|
  {
    if |row| == 0 then Undefined
    else if row[0].0 == key then row[0].1
    else
      assert Keys(row[1..]) == Keys(row)[1..];
      Lookup(row[1..], key)
  }

  /** `value.replace(/"/g, '""')`. */
  function DoubleQuotes(s: string): (r: string)
    ensures |r| >= |s|
  {
    if |s| == 0 then ""
    else if s[0] == '"' then "\"\"" + DoubleQuotes(s[1..])
    else [s[0]] + DoubleQuotes(s[1..])
  }

  /** Reading back the inside of a quoted field: each `""` is one quote. */
  function UndoubleQuotes(t: string): string
    decreases |t|
  {
    if |t| == 0 then ""
    else if |t| >= 2 && t[0] == '"' && t[1] == '"' then "\"" + UndoubleQuotes(t[2..])
    else [t[0]] + UndoubleQuotes(t[1..])
  }

  /** Inside a quoted field every quote is doubled: no quote stands alone. */
  predicate QuotesPaired(t: string)
    decreases |t|
  {
    if |t| == 0 then true
    else if t[0] == '"' then |t| >= 2 && t[1] == '"' && QuotesPaired(t[2..])
    else QuotesPaired(t[1..])
  }

  lemma {:induction false} DoubleQuotesRoundTrip(s: string)
    ensures UndoubleQuotes(DoubleQuotes(s)) == s
    ensures QuotesPaired(DoubleQuotes(s))
    decreases |s|
  {
    if |s| > 0 {
      DoubleQuotesRoundTrip(s[1..]);
      var rest := DoubleQuotes(s[1..]);
      if s[0] == '"' {
        assert ("\"\"" + rest)[2..] == rest;
      } else {
        assert ([s[0]] + rest)[1..] == rest;
      }
      assert [s[0]] + s[1..] == s;
    }
  }

  /** A string field is quoted when it holds a comma or a double quote. */
  predicate NeedsQuoting(s: string) {
    Contains(s, ",") || Contains(s, "\"")
  }

  /** One field as the joined line shows it: strings quoted when needed,
      numbers through `render`, `null` and `undefined` empty. */
  function FieldText(v: JsValue, render: real -> string): string {
    match v
    case Str(s) => if NeedsQuoting(s) then "\"" + DoubleQuotes(s) + "\"" else s
    case Number(n) => render(n)
    case Bool(b) => if b then "true" else "false"
    case Null => ""
    case Undefined => ""
  }

  /** A quoted field is an RFC 4180 escaped field that reads back as the
      original string. */
  lemma QuotedFieldReadsBack(s: string, render: real -> string)
    requires NeedsQuoting(s)
    ensures var f := FieldText(Str(s), render);
      && |f| >= 2 && f[0] == '"' && f[|f| - 1] == '"'
      && QuotesPaired(f[1..|f| - 1])
      && UndoubleQuotes(f[1..|f| - 1]) == s
  {
    var f := FieldText(Str(s), render);
    assert f[1..|f| - 1] == DoubleQuotes(s);
    DoubleQuotesRoundTrip(s);
  }

  /** A string without a comma or a quote is written as it is, even when it
      holds a line break, which RFC 4180 would have quoted. */
  lemma BareFieldUnquoted(s: string, render: real -> string)
    requires !NeedsQuoting(s)
    ensures FieldText(Str(s), render) == s
    ensures FieldText(Str("a\nb"), render) == "a\nb"
  {
    MissingCharNotContained("a\nb", ",", ',');
    MissingCharNotContained("a\nb", "\"", '"');
  }

  /** A data line: the first record's keys, looked up in this record. */
  function RowLine(headers: seq<string>, row: Record, render: real -> string): string {
    Join(seq(|headers|, i requires 0 <= i < |headers| => FieldText(Lookup(row, headers[i]), render)), ",")
  }

  /** The header line followed by one line per record. */
  function CsvLines(data: seq<Record>, render: real -> string): (r: seq<string>)
    requires |data| > 0
    ensures |r| == |data| + 1
    ensures r[0] == Join(Keys(data[0]), ",")
    ensures forall i :: 0 <= i < |data| ==> r[i + 1] == RowLine(Keys(data[0]), data[i], render)
  {
    var headers := Keys(data[0]);
    [Join(headers, ",")] + seq(|data|, i requires 0 <= i < |data| => RowLine(headers, data[i], render))
  }

  function CsvContent(data: seq<Record>, render: real -> string): string
    requires |data| > 0
  {
    Join(CsvLines(data, render), "\n")
  }

  /** The file name: `<filename>[_<date>].csv`, with "data" and a timestamp
      as the defaults for absent options; the date is the part of the ISO
      time before "T". */
  function ExportFileName(options: ExportOptions, isoNow: string): (name: string)
    ensures EndsWith(name, ".csv")
  {
    var base := if options.filename.Some? then options.filename.value else "data";
    var stamp := if options.includeTimestamp == Some(false) then "" else "_" + Split(isoNow, 'T')[0];
    var name := base + stamp + ".csv";
    assert name[|name| - 4..] == ".csv";
    name
  }

  datatype Export = Export(content: string, fileName: string)

  /** `exportToCSV` up to the download: `None` models a null `data`. */
  function ExportToCsv(data: Option<seq<Record>>, options: ExportOptions, isoNow: string,
                       render: real -> string): (r: Result<Export>)
    ensures r.Err? <==> data.None? || |data.value| == 0
    ensures r.Err? ==> r.message == NoData
    ensures r.Ok? ==> (r.value.content == Join(CsvLines(data.value, render), "\n")
                       && r.value.fileName == ExportFileName(options, isoNow))
  {
    if data.None? || |data.value| == 0 then Err(NoData)
    else Ok(Export(CsvContent(data.value, render), ExportFileName(options, isoNow)))
  }

  /** `exportToExcel` up to the download: the CSV text behind a byte-order mark. */
  function ExportToExcel(data: Option<seq<Record>>, options: ExportOptions, isoNow: string,
                         render: real -> string): (r: Result<Export>)
    ensures r.Err? <==> data.None? || |data.value| == 0
    ensures r.Err? ==> r.message == NoData
  {
    if data.None? || |data.value| == 0 then Err(NoData)
    else Ok(Export(Bom + CsvContent(data.value, render), ExportFileName(options, isoNow)))
  }

  /** The Excel variant fails exactly when the CSV one does, and otherwise
      differs only by the leading byte-order mark. */
  lemma ExcelIsBomPlusCsv(data: Option<seq<Record>>, options: ExportOptions, isoNow: string,
                          render: real -> string)
    ensures ExportToExcel(data, options, isoNow, render).Err? == ExportToCsv(data, options, isoNow, render).Err?
    ensures ExportToExcel(data, options, isoNow, render).Ok? ==>
      ExportToExcel(data, options, isoNow, render).value ==
      ExportToCsv(data, options, isoNow, render).value.(content := Bom + ExportToCsv(data, options, isoNow, render).value.content)
  {
  }

  /** When no header or field holds a line break, the content splits back
      into exactly `|data| + 1` lines: the header line and one per record. */
  lemma CsvLineCount(data: seq<Record>, render: real -> string)
    requires |data| > 0
    requires forall k :: 0 <= k < |data| + 1 ==> '\n' !in CsvLines(data, render)[k]
    ensures Split(CsvContent(data, render), '\n') == CsvLines(data, render)
    ensures |Split(CsvContent(data, render), '\n')| == |data| + 1
  {
    SplitJoin(CsvLines(data, render), '\n');
  }

  /** A key missing from a later record gives an empty field there. */
  lemma MissingKeyIsEmptyField(data: seq<Record>, render: real -> string, i: nat, j: nat)
    requires |data| > 0 && i < |data| && j < |data[0]|
    requires data[0][j].0 !in Keys(data[i])
    ensures FieldText(Lookup(data[i], Keys(data[0])[j]), render) == ""
  {
  }

  /** With the timestamp switched off the name is the base name plus ".csv";
      otherwise the date is inserted before the extension. */
  lemma FileNameSuffix(options: ExportOptions, isoNow: string)
    ensures var base := if options.filename.Some? then options.filename.value else "data";
      && (options.includeTimestamp == Some(false) ==> ExportFileName(options, isoNow) == base + ".csv")
      && (options.includeTimestamp != Some(false) ==>
            ExportFileName(options, isoNow) == base + "_" + Split(isoNow, 'T')[0] + ".csv")
  {
  }
}
