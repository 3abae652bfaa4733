/** The shared part of the instrument-file readers: the parsed-data record,
    the electrochemical technique classifier, unit extraction from column
    headers, unit-free column names and best-effort numeric coercion. */
module BaseParser {
  import opened Wrappers
  import opened JsText
  import opened JsNumber
  import opened Overlays

  /** The closed set of techniques a data set can be labelled with. */
  datatype Technique = CV | EIS | BatteryCycling | CA | CP | Unknown

  /** One table cell as the JavaScript side sees it: a number, a string, a
      NaN, or `undefined` (a read past the end of a row). */
  datatype Cell = Num(n: real) | Text(s: string) | NaN | Undefined

  /** The normalised result of reading one instrument file. */
  datatype ParsedData = ParsedData(
    technique: Technique,
    instrument: string,
    metadata: map<string, string>,
    columns: seq<string>,
    rows: seq<seq<Cell>>,
    units: map<string, string>)

  function LowerAll(hs: seq<string>): (r: seq<string>)
    ensures |r| == |hs|
    ensures forall i :: 0 <= i < |hs| ==> r[i] == ToLower(hs[i])
  {
    seq(|hs|, i requires 0 <= i < |hs| => ToLower(hs[i]))
  }

  // The five rules of the classifier, on lower-cased headers and content.

  predicate CvRule(hs: seq<string>, content: string) {
    (exists h :: h in hs && Contains(h, "ewe") && Contains(h, "i"))
    || Contains(content, "cyclic voltammetry") || Contains(content, "cv")
  }

  predicate EisRule(hs: seq<string>, content: string) {
    (exists h :: h in hs && (Contains(h, "re(z)") || Contains(h, "im(z)") || Contains(h, "freq")))
    || Contains(content, "impedance") || Contains(content, "eis")
  }

  predicate BatteryRule(hs: seq<string>, content: string) {
    (exists h :: h in hs && (Contains(h, "cycle") || Contains(h, "capacity") || Contains(h, "charge")))
    || Contains(content, "battery") || Contains(content, "cycling")
  }

  predicate CaRule(hs: seq<string>, content: string) {
    (exists h :: h in hs && Contains(h, "time") && Contains(h, "current"))
    && Contains(content, "chronoamperometry")
  }

  predicate CpRule(hs: seq<string>, content: string) {
    (exists h :: h in hs && Contains(h, "time") && Contains(h, "potential"))
    && Contains(content, "chronopotentiometry")
  }

  /** `content?.toLowerCase() || ''`. */
  function LowerContent(content: Option<string>): string {
    match content
    case None => ""
    case Some(c) => ToLower(c)
  }

  /** `detectTechnique`: the five rules are tried in order on the lower-cased
      inputs and the first that holds decides; Unknown only when none holds. */
  function DetectTechnique(headers: seq<string>, content: Option<string>): (t: Technique)
    ensures var hs, c := LowerAll(headers), LowerContent(content);
      && (t == CV <==> CvRule(hs, c))
      && (t == EIS <==> !CvRule(hs, c) && EisRule(hs, c))
      && (t == BatteryCycling <==> !CvRule(hs, c) && !EisRule(hs, c) && BatteryRule(hs, c))
      && (t == CA <==> !CvRule(hs, c) && !EisRule(hs, c) && !BatteryRule(hs, c) && CaRule(hs, c))
      && (t == CP <==> !CvRule(hs, c) && !EisRule(hs, c) && !BatteryRule(hs, c) && !CaRule(hs, c)
                       && CpRule(hs, c))
      && (t == Unknown <==> !CvRule(hs, c) && !EisRule(hs, c) && !BatteryRule(hs, c)
                            && !CaRule(hs, c) && !CpRule(hs, c))
  {
    var hs := LowerAll(headers);
    var c := LowerContent(content);
    if CvRule(hs, c) then CV
    else if EisRule(hs, c) then EIS
    else if BatteryRule(hs, c) then BatteryCycling
    else if CaRule(hs, c) then CA
    else if CpRule(hs, c) then CP
    else Unknown
  }

  /** Changing the letter case of headers or content never changes the
      classification. */
  lemma DetectTechniqueIgnoresCase(headers: seq<string>, content: string,
                                   headers': seq<string>, content': string)
    requires |headers| == |headers'|
    requires forall i :: 0 <= i < |headers| ==> ToLower(headers[i]) == ToLower(headers'[i])
    requires ToLower(content) == ToLower(content')
    ensures DetectTechnique(headers, Some(content)) == DetectTechnique(headers', Some(content'))
  {
    assert LowerAll(headers) == LowerAll(headers');
  }

  /** Classifying already lower-cased input gives the same answer. */
  lemma DetectTechniqueOnLowered(headers: seq<string>, content: string)
    ensures DetectTechnique(LowerAll(headers), Some(ToLower(content)))
         == DetectTechnique(headers, Some(content))
  {
    ToLowerIdempotent(content);
    forall i | 0 <= i < |headers| ensures ToLower(LowerAll(headers)[i]) == ToLower(headers[i]) {
      ToLowerIdempotent(headers[i]);
    }
    DetectTechniqueIgnoresCase(LowerAll(headers), ToLower(content), headers, content);
  }

  /** Content that mentions "cv" in any letter case is CV whatever the
      headers say. */
  lemma ContentCvWins(headers: seq<string>, content: string)
    requires Contains(ToLower(content), "cv")
    ensures DetectTechnique(headers, Some(content)) == CV
  {
  }

  /** Headers lacking the key letters of every header rule, with no
      content, match no rule. */
  lemma {:induction false} NoRuleWithoutKeyLetters(hs: seq<string>)
    requires forall h :: h in hs ==>
      'c' !in h && 'f' !in h && '(' !in h && 't' !in h && ('e' !in h || 'i' !in h)
    ensures !CvRule(hs, "") && !EisRule(hs, "") && !BatteryRule(hs, "")
    ensures !CaRule(hs, "") && !CpRule(hs, "")
  {
    forall h | h in hs
      ensures !(Contains(h, "ewe") && Contains(h, "i"))
      ensures !Contains(h, "re(z)") && !Contains(h, "im(z)") && !Contains(h, "freq")
      ensures !Contains(h, "cycle") && !Contains(h, "capacity") && !Contains(h, "charge")
      ensures !Contains(h, "time")
    {
      if 'e' !in h { MissingCharNotContained(h, "ewe", 'e'); }
      else { MissingCharNotContained(h, "i", 'i'); }
      MissingCharNotContained(h, "re(z)", '(');
      MissingCharNotContained(h, "im(z)", '(');
      MissingCharNotContained(h, "freq", 'f');
      MissingCharNotContained(h, "cycle", 'c');
      MissingCharNotContained(h, "capacity", 'c');
      MissingCharNotContained(h, "charge", 'c');
      MissingCharNotContained(h, "time", 't');
    }
  }

  /** A lower-case letter is in `ToLower(h)` only if it, or its capital, is in `h`. */
  lemma LowerLacks(h: string, c: char)
    requires 'a' <= c <= 'z' && c !in h && (c as int - 32) as char !in h
    ensures c !in ToLower(h)
  {
  }

  /** The CV header rule needs "ewe" and "i" inside ONE header: BioLogic's
      usual pair ["Ewe/V", "I/mA"] with no content matches no rule. */
  lemma EweAndCurrentHeadersAreUnknown()
    ensures DetectTechnique(["Ewe/V", "I/mA"], None) == Unknown
  {
    var h0, h1 := "Ewe/V", "I/mA";
    var hs := LowerAll([h0, h1]);
    assert '(' !in ToLower(h0) && '(' !in ToLower(h1);
    LowerLacks(h0, 'c'); LowerLacks(h0, 'f'); LowerLacks(h0, 't'); LowerLacks(h0, 'i');
    LowerLacks(h1, 'c'); LowerLacks(h1, 'f'); LowerLacks(h1, 't'); LowerLacks(h1, 'e');
    assert forall h :: h in hs ==> h == ToLower(h0) || h == ToLower(h1);
    NoRuleWithoutKeyLetters(hs);
  }

  /** A CA label needs a header with both "time" and "current" AND content
      naming chronoamperometry; CP likewise with "potential" and
      chronopotentiometry. */
  lemma ChronoLabelsNeedContent(headers: seq<string>, content: Option<string>)
    ensures DetectTechnique(headers, content) == CA ==>
      content.Some? && Contains(ToLower(content.value), "chronoamperometry")
      && exists h :: h in headers && Contains(ToLower(h), "time") && Contains(ToLower(h), "current")
    ensures DetectTechnique(headers, content) == CP ==>
      content.Some? && Contains(ToLower(content.value), "chronopotentiometry")
      && exists h :: h in headers && Contains(ToLower(h), "time") && Contains(ToLower(h), "potential")
  {
    var hs := LowerAll(headers);
    if DetectTechnique(headers, content) == CA {
      assert content.Some? by { assert !Contains("", "chronoamperometry"); }
      var h :| h in hs && Contains(h, "time") && Contains(h, "current");
      var i :| 0 <= i < |hs| && hs[i] == h;
      assert headers[i] in headers;
    }
    if DetectTechnique(headers, content) == CP {
      assert content.Some? by { assert !Contains("", "chronopotentiometry"); }
      var h :| h in hs && Contains(h, "time") && Contains(h, "potential");
      var i :| 0 <= i < |hs| && hs[i] == h;
      assert headers[i] in headers;
    }
  }

  // ---- Unit extraction ----

  /** Index of the last `c` in `s`, or -1. */
  function LastIndex(s: string, c: char): (r: int)
    ensures -1 <= r < |s|
    ensures r >= 0 ==> s[r] == c && c !in s[r + 1..]
    ensures r == -1 ==> c !in s
  {
    if |s| == 0 then -1
    else if s[|s| - 1] == c then |s| - 1
    else LastIndex(s[..|s| - 1], c)
  }

  /** Index of the first line terminator in `s`, or |s|. */
  function LineEnd(s: string): (k: nat)
    ensures k <= |s|
    ensures forall i :: 0 <= i < k ==> !IsLineTerminator(s[i])
    ensures k < |s| ==> IsLineTerminator(s[k])
  {
    if |s| == 0 || IsLineTerminator(s[0]) then 0 else 1 + LineEnd(s[1..])
  }

  /** `/(.+)\((.+)\)/` on a text with no line terminator: the greedy first
      group ends at the last "(" that leaves room for a non-empty second
      group closed by a ")", and the greedy second group ends at the last ")". */
  function LineParenMatch(line: string): (r: Option<(string, string)>)
    ensures r.Some? ==> |r.value.0| >= 1 && |r.value.1| >= 1
    ensures r.Some? ==> StartsWith(line, r.value.0 + "(" + r.value.1 + ")")
  {
    var j := LastIndex(line, ')');
    if j < 3 then None
    else
      var i := LastIndex(line[..j - 1], '(');
      if i < 1 then None
      else
        assert line[..j + 1] == line[..i] + "(" + line[i + 1..j] + ")";
        Some((line[..i], line[i + 1..j]))
  }

  /** `col.match(/(.+)\((.+)\)/)`: `.` does not cross a line terminator, so
      the leftmost match lies in the first line of `col` that has one. */
  function ParenMatch(col: string): (r: Option<(string, string)>)
    decreases |col|
  {
    var k := LineEnd(col);
    var m := LineParenMatch(col[..k]);
    if m.Some? then m
    else if k < |col| then ParenMatch(col[k + 1..])
    else None
  }

  /** The `Name/Unit` entry of a header: only when it has exactly one "/". */
  function SlashEntry(col: string): map<string, string> {
    if '/' in col then
      var parts := Split(col, '/');
      if |parts| == 2 then map[Trim(parts[0]) := Trim(parts[1])] else map[]
    else map[]
  }

  /** The entries one header contributes: the slash entry, then the
      `Name (Unit)` entry, which overwrites it when the keys coincide. */
  function ColumnUnits(col: string): map<string, string> {
    match ParenMatch(col)
    case Some((name, unit)) => SlashEntry(col)[Trim(name) := Trim(unit)]
    case None => SlashEntry(col)
  }

  /** The entries of each header, in header order. */
  function Contributions(cols: seq<string>): (r: seq<map<string, string>>)
    ensures |r| == |cols|
    ensures forall i :: 0 <= i < |cols| ==> r[i] == ColumnUnits(cols[i])
  {
    seq(|cols|, i requires 0 <= i < |cols| => ColumnUnits(cols[i]))
  }

  /** The units map after the headers `cols`, in order: later headers
      overwrite earlier ones. */
  function UnitsOf(cols: seq<string>): map<string, string> {
    Overlay(Contributions(cols))
  }

  /** The two writes `extractUnits` makes for one header, applied to the
      map built so far, add exactly that header's entries. */
  lemma {:induction false} ColumnStep(units: map<string, string>, col: string,
                                      afterSlash: map<string, string>, after: map<string, string>)
    requires afterSlash == units + SlashEntry(col)
    requires ParenMatch(col).Some? ==>
      after == afterSlash[Trim(ParenMatch(col).value.0) := Trim(ParenMatch(col).value.1)]
    requires ParenMatch(col).None? ==> after == afterSlash
    ensures after == units + ColumnUnits(col)
  {
    match ParenMatch(col)
    case Some((name, unit)) =>
      UnionUpdate(units, SlashEntry(col), Trim(name), Trim(unit));
    case None =>
  }

  lemma UnitsOfSnoc(cols: seq<string>, n: nat)
    requires n < |cols|
    ensures UnitsOf(cols[..n + 1]) == UnitsOf(cols[..n]) + ColumnUnits(cols[n])
  {
    var ms := Contributions(cols[..n + 1]);
    assert ms[..n] == Contributions(cols[..n]);
  }

  /** `extractUnits`. */
  method ExtractUnits(columns: seq<string>) returns (units: map<string, string>)
    ensures units == UnitsOf(columns)
  {
    units := map[];
    for n := 0 to |columns|
      invariant units == UnitsOf(columns[..n])
    {
      var col := columns[n];
      ghost var before := units;
      if '/' in col {
        var parts := Split(col, '/');
        if |parts| == 2 {
          units := units[Trim(parts[0]) := Trim(parts[1])];
          UpdateIsUnion(before, Trim(parts[0]), Trim(parts[1]));
        } else {
          EmptyUnion(before);
        }
      } else {
        EmptyUnion(before);
      }
      assert units == before + SlashEntry(col);
      ghost var afterSlash := units;
      var m := ParenMatch(col);
      if m.Some? {
        units := units[Trim(m.value.0) := Trim(m.value.1)];
      }
      ColumnStep(before, col, afterSlash, units);
      UnitsOfSnoc(columns, n);
    }
    assert columns[..|columns|] == columns;
  }

  /** A key is in the units map exactly when some header contributes it. */
  lemma UnitsOfKeys(cols: seq<string>, key: string)
    ensures key in UnitsOf(cols) <==> exists i :: 0 <= i < |cols| && key in ColumnUnits(cols[i])
  {
    OverlayKeys(Contributions(cols), key);
  }

  /** The unit of a key is the one its LAST contributing header gives. */
  lemma UnitsOfLastWins(cols: seq<string>, key: string, i: nat)
    requires i < |cols| && key in ColumnUnits(cols[i])
    requires forall j :: i < j < |cols| ==> key !in ColumnUnits(cols[j])
    ensures key in UnitsOf(cols) && UnitsOf(cols)[key] == ColumnUnits(cols[i])[key]
  {
    OverlayLastWins(Contributions(cols), key, i);
  }

  /** A header with exactly one "/" and no parenthesised unit maps its
      trimmed left part to its trimmed right part. */
  lemma SlashHeaderUnit(col: string, i: nat)
    requires i < |col| && col[i] == '/' && '/' !in col[..i] && '/' !in col[i + 1..]
    requires ParenMatch(col).None?
    ensures ColumnUnits(col) == map[Trim(col[..i]) := Trim(col[i + 1..])]
  {
    SlashEntryOfOneSlash(col, i);
  }

  lemma SlashEntryOfOneSlash(col: string, i: nat)
    requires i < |col| && col[i] == '/' && '/' !in col[..i] && '/' !in col[i + 1..]
    ensures SlashEntry(col) == map[Trim(col[..i]) := Trim(col[i + 1..])]
  {
    SplitHead(col, '/', i);
    SplitNoSeparator(col[i + 1..], '/');
    var parts := Split(col, '/');
    assert parts == [parts[0]] + parts[1..];
    assert parts == [col[..i], col[i + 1..]];
    assert '/' in col;
  }

  lemma {:induction false} NoSeparatorCount(s: string, c: char)
    requires c !in s
    ensures Count(s, c) == 0
    decreases |s|
  {
    if |s| > 0 {
      assert c !in s[1..] by { assert forall x :: x in s[1..] ==> x in s; }
      NoSeparatorCount(s[1..], c);
    }
  }

  /** A header with two or more "/" gets no slash entry. */
  lemma ManySlashesNoSlashEntry(col: string)
    requires Count(col, '/') >= 2
    requires ParenMatch(col).None?
    ensures ColumnUnits(col) == map[]
  {
    SplitLength(col, '/');
    if '/' !in col { NoSeparatorCount(col, '/'); }
  }

  /** The parenthesised entry wins over the slash entry of the same header. */
  lemma ParenEntryWins(col: string)
    requires ParenMatch(col).Some?
    ensures Trim(ParenMatch(col).value.0) in ColumnUnits(col)
    ensures ColumnUnits(col)[Trim(ParenMatch(col).value.0)] == Trim(ParenMatch(col).value.1)
  {
  }

  lemma UnitsOfEmpty()
    ensures UnitsOf([]) == map[]
  {
  }

  // ---- Column names and numeric coercion ----

  /** Index of the first `c` in `s`, or |s|. */
  function FirstIndex(s: string, c: char): (k: nat)
    ensures k <= |s|
    ensures c !in s[..k]
    ensures k < |s| ==> s[k] == c
  {
    if |s| == 0 || s[0] == c then 0 else 1 + FirstIndex(s[1..], c)
  }

  /** Start of the white-space run that ends just before index `q`. */
  function RunStart(s: string, q: nat): (p: nat)
    requires q <= |s|
    ensures p <= q
    ensures forall i :: p <= i < q ==> IsWhitespace(s[i])
  {
    if q > 0 && IsWhitespace(s[q - 1]) then RunStart(s, q - 1) else q
  }

  /** `s.replace(/\s*\([^)]*\)/, '')`: the first "(" that has a ")" after
      it is removed with the white space before it, through that ")". */
  function StripParenthesised(s: string): string {
    var q := FirstIndex(s, '(');
    if q == |s| then s
    else
      var r := q + 1 + FirstIndex(s[q + 1..], ')');
      if r == |s| then s
      else s[..RunStart(s, q)] + s[r + 1..]
  }

  /** `cleanColumnName`: the result has no "/" and no white space around it. */
  function CleanColumnName(column: string): (r: string)
    ensures '/' !in r
    ensures r == [] || (!IsWhitespace(r[0]) && !IsWhitespace(r[|r| - 1]))
    ensures '(' !in column && '/' !in column ==> r == Trim(column)
  {
    var clean := StripParenthesised(column);
    var head := Split(clean, '/')[0];
    TrimSlice(head);
    if '/' !in clean then SplitNoSeparator(clean, '/'); Trim(head) else Trim(head)
  }

  /** `parseNumericRow`: same length, and a cell stays a string exactly when
      `parseFloat` gives NaN for it. */
  function ParseNumericRow(row: seq<string>): (r: seq<Cell>)
    ensures |r| == |row|
    ensures forall i :: 0 <= i < |row| ==>
      (r[i] == Text(row[i]) <==> ParseFloat(row[i]).None?)
    ensures forall i :: 0 <= i < |row| ==>
      ParseFloat(row[i]).Some? ==> r[i] == Num(ParseFloat(row[i]).value)
  {
    seq(|row|, i requires 0 <= i < |row| =>
      match ParseFloat(row[i])
      case None => Text(row[i])
      case Some(v) => Num(v))
  }
}
