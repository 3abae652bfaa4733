/** The reader for Gamry `.dta` files: a header of tab-separated
    key/value lines, then a data section introduced by a line naming a curve
    (CURVE, ZCURVE, OCVCURVE), whose first line lists the column headers and
    whose other lines are tab-separated numbers. */
module GamryParser {
  import opened Wrappers
  import opened JsText
  import opened JsNumber
  import opened Overlays
  import opened BaseParser

  /** `canParse`: the file name must end in ".dta", lower case. */
  predicate CanParse(name: string) {
    EndsWith(name, ".dta")
  }

  /** The extension test is case-sensitive. */
  lemma CanParseIsCaseSensitive(stem: string)
    ensures CanParse(stem + ".dta")
    ensures !CanParse(stem + ".DTA")
  {
    assert (stem + ".dta")[|stem|..] == ".dta";
    assert (stem + ".DTA")[|stem|..] == ".DTA";
  }

  // ---- Locating the data section ----

  /** The `findIndex` test for the line that opens the data section. */
  predicate IsSectionTag(line: string) {
    Contains(line, "CURVE") || Contains(line, "ZCURVE") || Contains(line, "OCVCURVE")
  }

  /** The ZCURVE and OCVCURVE tests are subsumed by the CURVE test. */
  lemma SectionTagIsCurve(line: string)
    ensures IsSectionTag(line) <==> Contains(line, "CURVE")
  {
    if Contains(line, "ZCURVE") {
      ContainsAt("ZCURVE", "CURVE", 1);
      ContainsTransitive(line, "ZCURVE", "CURVE");
    }
    if Contains(line, "OCVCURVE") {
      ContainsAt("OCVCURVE", "CURVE", 3);
      ContainsTransitive(line, "OCVCURVE", "CURVE");
    }
  }

  /** `lines.findIndex(IsSectionTag)`, with -1 as `None`. */
  function SectionStart(lines: seq<string>): (r: Option<nat>)
    ensures r.Some? ==> r.value < |lines| && IsSectionTag(lines[r.value])
    ensures r.Some? ==> forall j :: 0 <= j < r.value ==> !IsSectionTag(lines[j])
    ensures r.None? ==> forall j :: 0 <= j < |lines| ==> !IsSectionTag(lines[j])
    decreases |lines|
  {
    if |lines| == 0 then None
    else if IsSectionTag(lines[0]) then Some(0)
    else
      match SectionStart(lines[1..])
      case None => None
      case Some(k) => Some(k + 1)
  }

  // ---- Header metadata ----

  /** The entry one header line contributes: none for a blank line, a line
      whose trimmed text starts with "TAG", or a line without a tab;
      otherwise the trimmed first field maps to the trimmed rest of the line. */
  function MetadataEntry(line: string): map<string, string> {
    var trimmed := Trim(line);
    if trimmed == "" || StartsWith(trimmed, "TAG") then map[]
    else if '\t' in trimmed then
      var parts := Split(trimmed, '\t');
      if |parts| >= 2 then map[Trim(parts[0]) := Trim(Join(parts[1..], "\t"))] else map[]
    else map[]
  }

  function MetadataEntries(lines: seq<string>): (r: seq<map<string, string>>)
    ensures |r| == |lines|
    ensures forall i :: 0 <= i < |lines| ==> r[i] == MetadataEntry(lines[i])
  {
    seq(|lines|, i requires 0 <= i < |lines| => MetadataEntry(lines[i]))
  }

  /** The metadata of the header lines: a later duplicate key overwrites an
      earlier one. */
  function MetadataOf(lines: seq<string>): map<string, string> {
    Overlay(MetadataEntries(lines))
  }

  /** `parseGamryMetadata`. */
  method ParseGamryMetadata(lines: seq<string>) returns (metadata: map<string, string>)
    ensures metadata == MetadataOf(lines)
  {
    metadata := map[];
    for n := 0 to |lines|
      invariant metadata == MetadataOf(lines[..n])
    {
      ghost var before := metadata;
      var trimmed := Trim(lines[n]);
      if trimmed == "" || StartsWith(trimmed, "TAG") {
        EmptyUnion(before);
      } else if '\t' in trimmed {
        var parts := Split(trimmed, '\t');
        if |parts| >= 2 {
          var key := Trim(parts[0]);
          var value := Trim(Join(parts[1..], "\t"));
          metadata := metadata[key := value];
          UpdateIsUnion(before, key, value);
        } else {
          EmptyUnion(before);
        }
      } else {
        EmptyUnion(before);
      }
      assert MetadataEntries(lines[..n + 1]) == MetadataEntries(lines[..n]) + [MetadataEntry(lines[n])];
      OverlaySnoc(MetadataEntries(lines[..n]), MetadataEntry(lines[n]));
    }
    assert lines[..|lines|] == lines;
  }

  /** A header line with a tab, after trimming, always yields an entry (the
      "two or more fields" test never fails): the key is the text before the
      first tab and the value the text after it, tabs included, both trimmed. */
  lemma MetadataEntryOfTabLine(line: string, i: nat)
    requires Trim(line) != "" && !StartsWith(Trim(line), "TAG")
    requires i < |Trim(line)| && Trim(line)[i] == '\t' && '\t' !in Trim(line)[..i]
    ensures MetadataEntry(line) == map[Trim(Trim(line)[..i]) := Trim(Trim(line)[i + 1..])]
  {
    var t := Trim(line);
    SplitHead(t, '\t', i);
    JoinSplit(t[i + 1..], '\t');
    var parts := Split(t, '\t');
    assert |parts| >= 2 by { assert |parts[1..]| >= 1; }
    assert Join(parts[1..], "\t") == t[i + 1..];
  }

  /** Blank lines, "TAG" lines and lines without a tab add nothing. */
  lemma MetadataEntrySkipped(line: string)
    requires Trim(line) == "" || StartsWith(Trim(line), "TAG") || '\t' !in Trim(line)
    ensures MetadataEntry(line) == map[]
  {
  }

  /** A metadata key comes from some header line, and its value is the one
      the last line with that key gives. */
  lemma MetadataKeys(lines: seq<string>, key: string)
    ensures key in MetadataOf(lines) <==>
      exists i :: 0 <= i < |lines| && key in MetadataEntry(lines[i])
  {
    OverlayKeys(MetadataEntries(lines), key);
  }

  lemma MetadataLastWins(lines: seq<string>, key: string, i: nat)
    requires i < |lines| && key in MetadataEntry(lines[i])
    requires forall j :: i < j < |lines| ==> key !in MetadataEntry(lines[j])
    ensures key in MetadataOf(lines) && MetadataOf(lines)[key] == MetadataEntry(lines[i])[key]
  {
    OverlayLastWins(MetadataEntries(lines), key, i);
  }

  // ---- Data section ----

  /** The filter of the data section: non-blank lines that do not start
      (untrimmed) with "TAG". */
  predicate IsDataLine(line: string) {
    Trim(line) != "" && !StartsWith(line, "TAG")
  }

  function DataLines(lines: seq<string>): seq<string>
    decreases |lines|
  {
    if |lines| == 0 then []
    else if IsDataLine(lines[0]) then [lines[0]] + DataLines(lines[1..])
    else DataLines(lines[1..])
  }

  /** The kept lines are exactly the data lines, in their order. */
  lemma {:induction false} DataLinesKept(lines: seq<string>)
    ensures forall k :: 0 <= k < |DataLines(lines)| ==> IsDataLine(DataLines(lines)[k])
    ensures forall l :: l in DataLines(lines) <==> l in lines && IsDataLine(l)
    ensures DataLines(lines) == [] <==> forall l :: l in lines ==> !IsDataLine(l)
    decreases |lines|
  {
    if |lines| > 0 {
      DataLinesKept(lines[1..]);
      assert lines == [lines[0]] + lines[1..];
    }
  }

  /** The header fields of the first data line: split on tabs, trimmed, and
      empty fields dropped. */
  function HeaderColumns(header: string): (r: seq<string>)
    ensures forall k :: 0 <= k < |r| ==> r[k] != "" && r[k] == Trim(r[k])
  {
    TrimmedNonEmpty(Split(header, '\t'))
  }

  function TrimmedNonEmpty(fields: seq<string>): (r: seq<string>)
    ensures |r| <= |fields|
    ensures forall k :: 0 <= k < |r| ==> r[k] != "" && r[k] == Trim(r[k])
  {
    if |fields| == 0 then []
    else
      var t := Trim(fields[0]);
      if t == "" then TrimmedNonEmpty(fields[1..])
      else
        TrimIdempotent(fields[0]);
        [t] + TrimmedNonEmpty(fields[1..])
  }

  lemma TrimIdempotent(s: string)
    ensures Trim(Trim(s)) == Trim(s)
  {
    var t := Trim(s);
    TrimSlice(s);
    if |t| > 0 { TrimNoop(t); }
  }

  /** One data cell: `parseFloat`, with NaN replaced by 0. */
  function CellValue(v: string): (x: real)
    ensures ParseFloat(v).Some? ==> x == ParseFloat(v).value
    ensures ParseFloat(v).None? ==> x == 0.0
  {
    match ParseFloat(v)
    case None => 0.0
    case Some(x) => x
  }

  /** `fields.map(parseFloat, NaN to 0)`. */
  function CellValues(fields: seq<string>): (r: seq<real>)
    ensures |r| == |fields|
    ensures forall k :: 0 <= k < |r| ==> r[k] == CellValue(fields[k])
  {
    seq(|fields|, k requires 0 <= k < |fields| => CellValue(fields[k]))
  }

  /** The values of one data line: its trimmed text split on tabs, cell by cell. */
  function RowValues(line: string): seq<real> {
    CellValues(Split(Trim(line), '\t'))
  }

  /** The rows of the lines after the header line; a line blank after
      trimming is skipped. */
  function RowsOf(lines: seq<string>): seq<seq<real>>
    decreases |lines|
  {
    if |lines| == 0 then []
    else
      var init := RowsOf(lines[..|lines| - 1]);
      if Trim(lines[|lines| - 1]) == "" then init else init + [RowValues(lines[|lines| - 1])]
  }

  /** The (columns, rows) of a data section. */
  function DataOf(lines: seq<string>): (seq<string>, seq<seq<real>>) {
    var dataLines := DataLines(lines);
    if |dataLines| == 0 then ([], [])
    else (HeaderColumns(dataLines[0]), RowsOf(dataLines[1..]))
  }

  /** `parseGamryData`. */
  method ParseGamryData(lines: seq<string>) returns (columns: seq<string>, rows: seq<seq<real>>)
    ensures (columns, rows) == DataOf(lines)
  {
    var dataLines := DataLines(lines);
    if |dataLines| == 0 {
      return [], [];
    }
    var headerLine := dataLines[0];
    columns := HeaderColumns(headerLine);
    ghost var body := dataLines[1..];
    rows := [];
    var i := 1;
    while i < |dataLines|
      invariant 1 <= i <= |dataLines|
      invariant rows == RowsOf(body[..i - 1])
    {
      var line := Trim(dataLines[i]);
      assert body[i - 1] == dataLines[i];
      RowsOfSnoc(body, i - 1);
      if line == "" {
        i := i + 1;
        continue;
      }
      var fields := Split(line, '\t');
      var values := CellValues(fields);
      assert values == RowValues(body[i - 1]);
      if |values| > 0 {
        rows := rows + [values];
      }
      i := i + 1;
    }
    assert body[..i - 1] == body;
  }

  lemma RowsOfSnoc(lines: seq<string>, n: nat)
    requires n < |lines|
    ensures RowsOf(lines[..n + 1]) ==
      if Trim(lines[n]) == "" then RowsOf(lines[..n]) else RowsOf(lines[..n]) + [RowValues(lines[n])]
  {
    assert lines[..n + 1][..n] == lines[..n];
  }

  /** Every data line after the header gives one row: the row count is one
      less than the number of data lines. */
  lemma {:induction false} RowsOfDataLines(lines: seq<string>)
    requires forall k :: 0 <= k < |lines| ==> IsDataLine(lines[k])
    ensures |RowsOf(lines)| == |lines|
    ensures forall k :: 0 <= k < |lines| ==> RowsOf(lines)[k] == RowValues(lines[k])
    decreases |lines|
  {
    if |lines| > 0 {
      var init, last := lines[..|lines| - 1], lines[|lines| - 1];
      assert IsDataLine(last);
      assert RowsOf(lines) == RowsOf(init) + [RowValues(last)];
      RowsOfDataLines(init);
      forall k | 0 <= k < |lines| ensures RowsOf(lines)[k] == RowValues(lines[k]) {
        if k < |init| {
          assert RowsOf(lines)[k] == RowsOf(init)[k];
          assert init[k] == lines[k];
        }
      }
    }
  }

  lemma RowCount(lines: seq<string>)
    ensures |DataLines(lines)| >= 1 ==> |DataOf(lines).1| == |DataLines(lines)| - 1
    ensures |DataLines(lines)| == 0 ==> DataOf(lines) == ([], [])
  {
    var dl := DataLines(lines);
    if |dl| >= 1 {
      DataLinesKept(lines);
      RowsOfDataLines(dl[1..]);
    }
  }

  /** Digit strings joined with tabs: the line needs no trimming and splits
      back into those strings. */
  lemma TabJoinedDigits(parts: seq<string>)
    requires |parts| >= 1
    requires forall k :: 0 <= k < |parts| ==> |parts[k]| >= 1 && forall c :: c in parts[k] ==> '0' <= c <= '9'
    ensures Trim(Join(parts, "\t")) == Join(parts, "\t")
    ensures Split(Trim(Join(parts, "\t")), '\t') == parts
  {
    var line := Join(parts, "\t");
    assert "\t" == ['\t'];
    SplitJoin(parts, '\t');
    JoinFirst(parts, "\t");
    JoinLast(parts, "\t");
    assert line[0] in parts[0] && line[|line| - 1] in parts[|parts| - 1];
    TrimNoop(line);
  }

  /** A row of non-negative integers written out with tabs reads back as
      those numbers. */
  lemma RowOfNaturals(ns: seq<nat>)
    requires |ns| >= 1
    ensures RowValues(Join(seq(|ns|, i requires 0 <= i < |ns| => NatToString(ns[i])), "\t"))
         == seq(|ns|, i requires 0 <= i < |ns| => ns[i] as real)
  {
    var parts := seq(|ns|, i requires 0 <= i < |ns| => NatToString(ns[i]));
    TabJoinedDigits(parts);
    assert RowValues(Join(parts, "\t")) == CellValues(parts);
    forall k | 0 <= k < |ns| ensures CellValue(parts[k]) == ns[k] as real {
      ParseFloatOfNat(ns[k]);
    }
  }

  // ---- The whole file ----

  const NoDataSection := "Invalid Gamry DTA file: no data section found"

  /** What `parse` yields for the file's text: the lines before the
      section tag are the header, the lines after it the data, and the text
      as a whole is the content the classifier reads. */
  function ParseResult(text: string): Result<ParsedData> {
    var lines := Split(text, '\n');
    match SectionStart(lines)
    case None => Err(NoDataSection)
    case Some(k) =>
      var (columns, rows) := DataOf(lines[k + 1..]);
      Ok(ParsedData(DetectTechnique(columns, Some(text)), "Gamry",
                    MetadataOf(lines[..k]), columns, ToCells(rows), UnitsOf(columns)))
  }

  /** `parse`. */
  method Parse(text: string) returns (r: Result<ParsedData>)
    ensures r == ParseResult(text)
  {
    var lines := Split(text, '\n');
    var dataStartIndex := SectionStart(lines);
    if dataStartIndex.None? {
      return Err(NoDataSection);
    }
    var k := dataStartIndex.value;
    var metadata := ParseGamryMetadata(lines[..k]);
    var columns, rows := ParseGamryData(lines[k + 1..]);
    var technique := DetectTechnique(columns, Some(text));
    var units := ExtractUnits(columns);
    r := Ok(ParsedData(technique, "Gamry", metadata, columns, ToCells(rows), units));
  }

  /** A parsed file is always labelled Gamry, its units are those of its
      columns, its metadata comes only from the lines before the section tag
      and its data only from the lines after it. */
  lemma ParseResultShape(text: string)
    ensures var lines := Split(text, '\n');
      ParseResult(text).Ok? ==>
        var k := SectionStart(lines).value;
        var p := ParseResult(text).value;
        && p.instrument == "Gamry"
        && p.units == UnitsOf(p.columns)
        && p.metadata == MetadataOf(lines[..k])
        && p.columns == DataOf(lines[k + 1..]).0
        && |p.rows| == |DataOf(lines[k + 1..]).1|
  {
  }

  /** Parsing fails, with the "no data section" message, exactly when no
      line of the text contains "CURVE". */
  lemma ParseRejectsExactly(text: string)
    ensures ParseResult(text).Err? <==> forall l :: l in Split(text, '\n') ==> !Contains(l, "CURVE")
    ensures ParseResult(text).Err? ==> ParseResult(text).message == NoDataSection
  {
    var lines := Split(text, '\n');
    forall l | l in lines ensures IsSectionTag(l) <==> Contains(l, "CURVE") {
      SectionTagIsCurve(l);
    }
    match SectionStart(lines)
    case Some(k) =>
      assert lines[k] in lines;
    case None =>
      forall l | l in lines ensures !IsSectionTag(l) {
        var j :| 0 <= j < |lines| && lines[j] == l;
      }
  }

  function ToCells(rows: seq<seq<real>>): (r: seq<seq<Cell>>)
    ensures |r| == |rows|
    ensures forall i :: 0 <= i < |rows| ==> |r[i]| == |rows[i]|
    ensures forall i, j :: 0 <= i < |rows| && 0 <= j < |rows[i]| ==> r[i][j] == Num(rows[i][j])
  {
    seq(|rows|, i requires 0 <= i < |rows| => seq(|rows[i]|, j requires 0 <= j < |rows[i]| => Num(rows[i][j])))
  }
}
