/** The manuscript format check: for a chosen journal and a pasted text, the
    list of issues found (word limit, IMRAD sections, citation style, data
    availability, abstract length) followed by a standing formatting
    suggestion. */
module PublicationFormat {
  import opened Wrappers
  import opened JsText
  import opened JsNumber

  datatype CitationStyle = Apa | Mla | Chicago | NatureStyle | Acs | Ieee

  datatype Journal = Journal(id: string, name: string, publisher: string, citationStyle: CitationStyle,
                             wordLimit: nat, abstractLimit: nat, structure: seq<string>,
                             referenceStyle: string)

  const Journals: seq<Journal> := [
    Journal("nature", "Nature", "Nature Publishing Group", NatureStyle, 3000, 200,
            ["Abstract", "Introduction", "Results", "Discussion", "Methods", "References", "Data Availability"],
            "Numbered in order of appearance"),
    Journal("jacs", "Journal of the American Chemical Society", "ACS Publications", Acs, 7000, 250,
            ["Abstract", "Introduction", "Experimental", "Results", "Discussion", "Conclusions", "References"],
            "ACS Style Guide"),
    Journal("electrochimica", "Electrochimica Acta", "Elsevier", Apa, 10000, 300,
            ["Abstract", "Keywords", "Introduction", "Experimental", "Results", "Discussion", "Conclusions",
             "References"],
            "Vancouver numbered style"),
    Journal("jes", "Journal of The Electrochemical Society", "ECS", Ieee, 8000, 250,
            ["Abstract", "Introduction", "Methods", "Results & Discussion", "Conclusions", "Acknowledgments",
             "References"],
            "IEEE citation style"),
    Journal("energy-storage", "Energy Storage Materials", "Elsevier", Apa, 7000, 200,
            ["Abstract", "Graphical Abstract", "Introduction", "Experimental", "Results", "Discussion",
             "Conclusions", "References"],
            "Elsevier Harvard style")]

  /** `journals.find(j => j.id === id)`. */
  function FindJournalFrom(id: string, i: nat): (r: Option<Journal>)
    requires i <= |Journals|
    ensures r.Some? ==> r.value in Journals && r.value.id == id
    ensures r.None? ==> forall k :: i <= k < |Journals| ==> Journals[k].id != id
    decreases |Journals| - i
  {
    if i == |Journals| then None
    else if Journals[i].id == id then Some(Journals[i])
    else FindJournalFrom(id, i + 1)
  }

  function FindJournal(id: string): Option<Journal> {
    FindJournalFrom(id, 0)
  }

  datatype IssueKind = Error | Warning | Suggestion
  datatype Category = Structure | WordCount | Citation | Formatting | DataAvailability

  datatype Issue = Issue(kind: IssueKind, category: Category, message: string, location: Option<string>,
                         autoFix: bool)

  /** The result of `analyzeManuscript`: refused for a missing journal or
      text, a `TypeError` for an id the table lacks, or the issue list. */
  datatype Outcome = MissingInformation | UnknownJournal | Analysed(issues: seq<Issue>)

  // ---- Text tests ----

  /** The number of characters from `i` on that satisfy `p`. */
  function Run(s: string, i: nat, p: char -> bool): (n: nat)
    requires i <= |s|
    ensures i + n <= |s|
    ensures forall k :: i <= k < i + n ==> p(s[k])
    ensures i + n < |s| ==> !p(s[i + n])
    decreases |s| - i
  {
    if i < |s| && p(s[i]) then 1 + Run(s, i + 1, p) else 0
  }

  /** `/word/i.test(text)`, for a lower-case ASCII word. */
  predicate Mentions(text: string, word: string) {
    Contains(ToLower(text), word)
  }

  predicate HasIntroduction(text: string) {
    Mentions(text, "introduction")
  }

  predicate HasMethods(text: string) {
    Mentions(text, "methods") || Mentions(text, "experimental") || Mentions(text, "materials")
  }

  predicate HasResults(text: string) {
    Mentions(text, "results")
  }

  predicate IsUpper(c: char) {
    'A' <= c <= 'Z'
  }

  predicate IsLower(c: char) {
    'a' <= c <= 'z'
  }

  /** `\([A-Z][a-z]+,\s*\d{4}\)` matches at `i`. The runs of lower-case
      letters and of white space are followed by a character outside their
      class, so their longest runs are the only ones that can match. */
  predicate ApaAt(s: string, i: nat) {
    i + 1 < |s| && s[i] == '(' && IsUpper(s[i + 1])
    && var j := i + 2 + Run(s, i + 2, IsLower);
    j > i + 2 && j < |s| && s[j] == ','
    && var d := j + 1 + Run(s, j + 1, IsWhitespace);
    d + 4 < |s| && (forall q :: d <= q < d + 4 ==> IsDigit(s[q])) && s[d + 4] == ')'
  }

  /** The APA-citation test: case-sensitive, anywhere in the text. */
  predicate HasApaCitation(s: string) {
    exists i :: 0 <= i < |s| && ApaAt(s, i)
  }

  // ---- The abstract ----

  /** `[:\s]`. */
  predicate IsSeparator(c: char) {
    c == ':' || IsWhitespace(c)
  }

  /** `introduction` or `keywords` starts at `e` of the lower-cased text. */
  predicate KeywordAt(l: string, e: nat) {
    e <= |l| && (StartsWith(l[e..], "introduction") || StartsWith(l[e..], "keywords"))
  }

  predicate AbstractAt(l: string, i: nat) {
    i <= |l| && StartsWith(l[i..], "abstract")
  }

  /** The first keyword at or after `e`. */
  function FirstKeywordFrom(l: string, e: nat): (r: Option<nat>)
    ensures r.Some? ==> (e <= r.value && KeywordAt(l, r.value)
      && forall k :: e <= k < r.value ==> !KeywordAt(l, k))
    ensures r.None? ==> forall k :: e <= k ==> !KeywordAt(l, k)
    decreases |l| + 1 - e
  {
    if e > |l| then None
    else if KeywordAt(l, e) then Some(e)
    else FirstKeywordFrom(l, e + 1)
  }

  /** The capture of `/abstract[:\s]+([\s\S]+?)(?:introduction|keywords)/i`
      for a match starting at `i`. The separators are taken greedily and
      the capture lazily; only when no keyword follows the separators at
      a distance does the engine give back one separator, which becomes
      the capture. */
  function MatchAt(t: string, l: string, i: nat): Option<string>
    requires |t| == |l|
  {
    if !AbstractAt(l, i) then None
    else
      var p := i + 8;
      var m := Run(l, p, IsSeparator);
      if m == 0 then None
      else
        match FirstKeywordFrom(l, p + m + 1)
        case Some(e) => Some(t[p + m..e])
        case None => if m >= 2 && KeywordAt(l, p + m) then Some(t[p + m - 1..p + m]) else None
  }

  function FirstMatchFrom(t: string, l: string, i: nat): (r: Option<string>)
    requires |t| == |l|
    ensures r.None? ==> forall k :: i <= k ==> MatchAt(t, l, k).None?
    decreases |l| + 1 - i
  {
    if i > |l| then None
    else if MatchAt(t, l, i).Some? then MatchAt(t, l, i)
    else FirstMatchFrom(t, l, i + 1)
  }

  /** The abstract's text, when the pattern matches. */
  function AbstractCapture(text: string): Option<string> {
    FirstMatchFrom(text, ToLower(text), 0)
  }

  /** `split(/\s+/).length`: empty parts at either end are counted. */
  function CheckedWordCount(text: string): nat {
    |SplitWhitespace(text)|
  }

  /** The count shown under the text box, which drops empty parts. */
  function DisplayedWordCount(text: string): nat {
    |NonEmptyParts(SplitWhitespace(text))|
  }

  // ---- The issues ----

  const IntroductionMissing :=
    Issue(Error, Structure, "Missing \"Introduction\" section - required by IMRAD structure",
          Some("Document structure"), false)
  const MethodsMissing :=
    Issue(Error, Structure, "Missing \"Methods/Experimental\" section - required by IMRAD structure",
          Some("Document structure"), false)
  const ResultsMissing :=
    Issue(Warning, Structure, "Missing \"Results\" section - check IMRAD compliance",
          Some("Document structure"), false)
  const AbstractMissing :=
    Issue(Error, Structure, "Abstract section not found or not properly formatted", None, false)
  const FormattingSuggestion :=
    Issue(Suggestion, Formatting, "Consider using structured abstract (Background, Methods, Results, Conclusions)",
          None, true)
  const NoCriticalIssues :=
    Issue(Suggestion, Formatting, "No critical issues found! Review journal-specific guidelines before submission",
          None, false)

  function WordLimitIssue(count: nat, limit: nat): Issue
    requires count > limit
  {
    Issue(Error, WordCount,
          "Manuscript exceeds word limit: " + NatToString(count) + "/" + NatToString(limit)
          + " words (+" + NatToString(count - limit) + " over)", None, false)
  }

  function CitationIssue(j: Journal): Issue {
    Issue(Error, Citation, "Found APA-style citations, but " + j.name + " requires numbered citations", None, true)
  }

  function DataAvailabilityIssue(j: Journal): Issue {
    Issue(Warning, DataAvailability,
          j.name + " requires a Data Availability statement - ensure dataset is deposited in public repository",
          None, true)
  }

  function AbstractLengthIssue(words: nat, limit: nat): Issue {
    Issue(Warning, WordCount, "Abstract exceeds limit: " + NatToString(words) + "/" + NatToString(limit) + " words",
          None, false)
  }

  /** The words of a found abstract. */
  function AbstractWords(capture: string): nat {
    |SplitWhitespace(Trim(capture))|
  }

  function WordCountIssues(j: Journal, text: string): seq<Issue> {
    if CheckedWordCount(text) > j.wordLimit then [WordLimitIssue(CheckedWordCount(text), j.wordLimit)] else []
  }

  function StructureIssues(text: string): seq<Issue> {
    (if HasIntroduction(text) then [] else [IntroductionMissing])
    + (if HasMethods(text) then [] else [MethodsMissing])
    + (if HasResults(text) then [] else [ResultsMissing])
  }

  function CitationIssues(j: Journal, text: string): seq<Issue> {
    if j.citationStyle == NatureStyle && HasApaCitation(text) then [CitationIssue(j)] else []
  }

  /** The abstract check, given what the pattern captured. */
  function AbstractIssues(j: Journal, capture: Option<string>): seq<Issue> {
    match capture
    case None => [AbstractMissing]
    case Some(c) =>
      if AbstractWords(c) > j.abstractLimit then [AbstractLengthIssue(AbstractWords(c), j.abstractLimit)] else []
  }

  /** The checks in the order `analyzeManuscript` makes them. */
  function DetectedIssues(j: Journal, text: string): (r: seq<Issue>)
    ensures |r| >= 2
  {
    WordCountIssues(j, text) + StructureIssues(text) + CitationIssues(j, text)
    + [DataAvailabilityIssue(j)] + AbstractIssues(j, AbstractCapture(text)) + [FormattingSuggestion]
  }

  /** What `analyzeManuscript` leaves in `issues`. */
  function Analysis(selected: Option<string>, text: string): Outcome {
    if selected.None? || selected.value == "" || Trim(text) == "" then MissingInformation
    else
      match FindJournal(selected.value)
      case None => UnknownJournal
      case Some(j) =>
        var issues := DetectedIssues(j, text);
        Analysed(if |issues| == 0 then [NoCriticalIssues] else issues)
  }

  /** The word-limit check's push onto `detected`. */
  method PushWordCountIssue(detected: seq<Issue>, journal: Journal, text: string) returns (r: seq<Issue>)
    ensures r == detected + WordCountIssues(journal, text)
  {
    r := detected;
    var wordCount := CheckedWordCount(text);
    if wordCount > journal.wordLimit {
      r := r + [WordLimitIssue(wordCount, journal.wordLimit)];
    }
  }

  /** The IMRAD section checks' pushes onto `detected`. */
  method PushStructureIssues(detected: seq<Issue>, text: string) returns (r: seq<Issue>)
    ensures r == detected + StructureIssues(text)
  {
    r := detected;
    if !HasIntroduction(text) {
      r := r + [IntroductionMissing];
    }
    if !HasMethods(text) {
      r := r + [MethodsMissing];
    }
    if !HasResults(text) {
      r := r + [ResultsMissing];
    }
  }

  /** The citation-style check's push onto `detected`. */
  method PushCitationIssue(detected: seq<Issue>, journal: Journal, text: string) returns (r: seq<Issue>)
    ensures r == detected + CitationIssues(journal, text)
  {
    r := detected;
    if journal.citationStyle == NatureStyle && HasApaCitation(text) {
      r := r + [CitationIssue(journal)];
    }
  }

  /** The abstract-length check's pushes onto `detected`. */
  method PushAbstractIssues(detected: seq<Issue>, journal: Journal, text: string) returns (r: seq<Issue>)
    ensures r == detected + AbstractIssues(journal, AbstractCapture(text))
  {
    r := detected;
    var abstractMatch := AbstractCapture(text);
    if abstractMatch.Some? {
      var abstractWords := AbstractWords(abstractMatch.value);
      if abstractWords > journal.abstractLimit {
        r := r + [AbstractLengthIssue(abstractWords, journal.abstractLimit)];
      }
    } else {
      r := r + [AbstractMissing];
    }
  }

  /** The checks of `analyzeManuscript` for a found journal, each pushing
      its issue onto `detected`. */
  method DetectIssues(journal: Journal, text: string) returns (detected: seq<Issue>)
    ensures detected == DetectedIssues(journal, text)
  {
    detected := [];
    detected := PushWordCountIssue(detected, journal, text);
    assert detected == WordCountIssues(journal, text);
    detected := PushStructureIssues(detected, text);
    detected := PushCitationIssue(detected, journal, text);
    detected := detected + [DataAvailabilityIssue(journal)];
    detected := PushAbstractIssues(detected, journal, text);
    detected := detected + [FormattingSuggestion];
  }

  /** `analyzeManuscript`: the guard, the journal lookup, the checks, and
      the fallback entry for an empty list. */
  method AnalyzeManuscript(selected: Option<string>, text: string) returns (outcome: Outcome)
    ensures outcome == Analysis(selected, text)
  {
    if selected.None? || selected.value == "" || Trim(text) == "" {
      return MissingInformation;
    }
    var found := FindJournal(selected.value);
    if found.None? {
      return UnknownJournal;
    }
    var detected := DetectIssues(found.value, text);
    if |detected| == 0 {
      detected := detected + [NoCriticalIssues];
    }
    return Analysed(detected);
  }

  // ---- Properties ----

  /** Nothing is analysed without a journal or with blank text; a known
      journal always gets its issue list. */
  lemma AnalysisGuard(selected: Option<string>, text: string)
    ensures Analysis(selected, text) == MissingInformation <==>
      selected.None? || selected.value == "" || Trim(text) == ""
    ensures selected.Some? && selected.value != "" && Trim(text) != "" && FindJournal(selected.value).Some? ==>
      Analysis(selected, text) == Analysed(DetectedIssues(FindJournal(selected.value).value, text))
  {
  }

  /** Every listed journal is found by its id. */
  lemma FindsEveryJournal(k: nat)
    requires k < |Journals|
    ensures FindJournal(Journals[k].id) == Some(Journals[k])
  {
    assert Journals[0].id == "nature" && Journals[1].id == "jacs" && Journals[2].id == "electrochimica";
    assert Journals[3].id == "jes" && Journals[4].id == "energy-storage";
    assert Journals[1].id != Journals[0].id && Journals[2].id != Journals[0].id;
    assert Journals[3].id != Journals[0].id && Journals[4].id != Journals[0].id;
  }

  /** The list always ends with the formatting suggestion, so it is never
      empty and the "no critical issues" entry never appears. */
  lemma SuggestionAlwaysLast(j: Journal, text: string)
    ensures var r := DetectedIssues(j, text);
      r[|r| - 1] == FormattingSuggestion && NoCriticalIssues !in r
  {
    var front := WordCountIssues(j, text) + StructureIssues(text) + CitationIssues(j, text)
      + [DataAvailabilityIssue(j)] + AbstractIssues(j, AbstractCapture(text));
    assert DetectedIssues(j, text) == front + [FormattingSuggestion];
    PartCategories(j, text);
    InParts(j, text, NoCriticalIssues);
  }

  /** Every issue of a category comes from that category's part of the list. */
  lemma PartCategories(j: Journal, text: string)
    ensures forall x :: x in WordCountIssues(j, text) ==> x.category == WordCount && x.kind == Error
    ensures forall x :: x in StructureIssues(text) ==> x.category == Structure
    ensures forall x :: x in CitationIssues(j, text) ==> x.category == Citation
    ensures forall x :: x in AbstractIssues(j, AbstractCapture(text)) ==>
      (x.category == Structure && x == AbstractMissing) || (x.category == WordCount && x.kind == Warning)
  {
    var a := if HasIntroduction(text) then [] else [IntroductionMissing];
    var b := if HasMethods(text) then [] else [MethodsMissing];
    var c := if HasResults(text) then [] else [ResultsMissing];
    assert StructureIssues(text) == a + b + c;
    forall x | x in StructureIssues(text) ensures x.category == Structure {
      assert x in a || x in b || x in c;
    }
    var capture := AbstractCapture(text);
    forall x | x in AbstractIssues(j, capture)
      ensures (x.category == Structure && x == AbstractMissing) || (x.category == WordCount && x.kind == Warning)
    {
      if capture.None? {
        assert x == AbstractMissing;
      } else {
        assert x == AbstractLengthIssue(AbstractWords(capture.value), j.abstractLimit);
      }
    }
  }

  /** An issue is in the list exactly when it is in one of its parts. */
  lemma InParts(j: Journal, text: string, x: Issue)
    ensures x in DetectedIssues(j, text) <==>
      x in WordCountIssues(j, text) || x in StructureIssues(text) || x in CitationIssues(j, text)
      || x == DataAvailabilityIssue(j) || x in AbstractIssues(j, AbstractCapture(text)) || x == FormattingSuggestion
  {
  }

  /** The fixed structure issues are four different entries. */
  lemma StructureIssuesDistinct()
    ensures IntroductionMissing != MethodsMissing && IntroductionMissing != ResultsMissing
    ensures MethodsMissing != ResultsMissing
    ensures AbstractMissing !in {IntroductionMissing, MethodsMissing, ResultsMissing}
  {
    assert |IntroductionMissing.message| != |MethodsMissing.message|;
  }

  /** A word-count error is reported exactly when the `/\s+/` split of the
      text has more parts than the journal allows. */
  lemma WordLimitErrorIff(j: Journal, text: string)
    ensures (exists x :: x in DetectedIssues(j, text) && x.category == WordCount && x.kind == Error)
      <==> CheckedWordCount(text) > j.wordLimit
  {
    PartCategories(j, text);
    var r := DetectedIssues(j, text);
    if CheckedWordCount(text) > j.wordLimit {
      var w := WordLimitIssue(CheckedWordCount(text), j.wordLimit);
      assert w in WordCountIssues(j, text);
      InParts(j, text, w);
    }
    if exists x :: x in r && x.category == WordCount && x.kind == Error {
      var x :| x in r && x.category == WordCount && x.kind == Error;
      InParts(j, text, x);
      assert x in WordCountIssues(j, text);
    }
  }

  /** The structure checks: the introduction and methods errors and the
      results warning appear exactly when the word is missing; the
      discussion is not checked at all. */
  lemma StructureIssuesIff(j: Journal, text: string)
    ensures IntroductionMissing in DetectedIssues(j, text) <==> !HasIntroduction(text)
    ensures MethodsMissing in DetectedIssues(j, text) <==> !HasMethods(text)
    ensures ResultsMissing in DetectedIssues(j, text) <==> !HasResults(text)
  {
    PartCategories(j, text);
    StructureIssuesDistinct();
    InParts(j, text, IntroductionMissing);
    InParts(j, text, MethodsMissing);
    InParts(j, text, ResultsMissing);
  }

  /** A citation error exactly for a Nature-style journal and a text with
      an APA-style citation. */
  lemma CitationErrorIff(j: Journal, text: string)
    ensures CitationIssue(j) in DetectedIssues(j, text) <==> j.citationStyle == NatureStyle && HasApaCitation(text)
  {
    PartCategories(j, text);
  }

  /** The data-availability warning is always reported, whatever the
      journal's own section list says. */
  lemma DataAvailabilityAlways(j: Journal, text: string)
    ensures DataAvailabilityIssue(j) in DetectedIssues(j, text)
    ensures exists x :: x in DetectedIssues(j, text) && x.kind == Warning
  {
    assert DataAvailabilityIssue(j) in DetectedIssues(j, text);
  }

  /** The abstract: an error when the pattern does not match, a warning
      when the captured text has more words than the limit. */
  lemma AbstractIssuesIff(j: Journal, text: string)
    ensures AbstractMissing in DetectedIssues(j, text) <==> AbstractCapture(text).None?
    ensures (exists x :: x in DetectedIssues(j, text) && x.category == WordCount && x.kind == Warning)
      <==> AbstractCapture(text).Some? && AbstractWords(AbstractCapture(text).value) > j.abstractLimit
  {
    AbstractMissingIff(j, text);
    AbstractLengthWarningIff(j, text);
  }

  lemma AbstractMissingIff(j: Journal, text: string)
    ensures AbstractMissing in DetectedIssues(j, text) <==> AbstractCapture(text).None?
  {
    PartCategories(j, text);
    StructureIssuesDistinct();
    InParts(j, text, AbstractMissing);
    var a := if HasIntroduction(text) then [] else [IntroductionMissing];
    var b := if HasMethods(text) then [] else [MethodsMissing];
    var c := if HasResults(text) then [] else [ResultsMissing];
    assert StructureIssues(text) == a + b + c;
    assert AbstractMissing !in StructureIssues(text);
    var capture := AbstractCapture(text);
    if capture.Some? {
      assert AbstractMissing !in AbstractIssues(j, capture);
    }
  }

  lemma AbstractLengthWarningIff(j: Journal, text: string)
    ensures (exists x :: x in DetectedIssues(j, text) && x.category == WordCount && x.kind == Warning)
      <==> AbstractCapture(text).Some? && AbstractWords(AbstractCapture(text).value) > j.abstractLimit
  {
    PartCategories(j, text);
    var r := DetectedIssues(j, text);
    var capture := AbstractCapture(text);
    if capture.Some? && AbstractWords(capture.value) > j.abstractLimit {
      var w := AbstractLengthIssue(AbstractWords(capture.value), j.abstractLimit);
      assert w in AbstractIssues(j, capture);
      InParts(j, text, w);
    }
    if exists x :: x in r && x.category == WordCount && x.kind == Warning {
      var x :| x in r && x.category == WordCount && x.kind == Warning;
      InParts(j, text, x);
      assert x in AbstractIssues(j, capture);
    }
  }

  /** The list holds one entry per failed check plus the two standing ones. */
  lemma IssueCount(j: Journal, text: string)
    ensures |DetectedIssues(j, text)| ==
      (if CheckedWordCount(text) > j.wordLimit then 1 else 0)
      + (if HasIntroduction(text) then 0 else 1)
      + (if HasMethods(text) then 0 else 1)
      + (if HasResults(text) then 0 else 1)
      + (if j.citationStyle == NatureStyle && HasApaCitation(text) then 1 else 0)
      + (match AbstractCapture(text)
         case None => 1
         case Some(c) => if AbstractWords(c) > j.abstractLimit then 1 else 0)
      + 2
  {
  }

  /** Keyword positions are never separators. */
  lemma KeywordNotSeparator(l: string, e: nat)
    requires KeywordAt(l, e)
    ensures e < |l| && !IsSeparator(l[e])
  {
    assert l[e] == l[e..][0];
  }

  /** "abstract" at `i`, a separator right after it, and a keyword at
      `e`, at least two characters after the word. */
  predicate AbstractPattern(l: string, i: nat, e: nat) {
    AbstractAt(l, i) && i + 8 < |l| && IsSeparator(l[i + 8]) && i + 10 <= e && KeywordAt(l, e)
  }

  /** The pattern matches at `i` exactly when it can be laid out there. */
  lemma MatchAtIff(t: string, l: string, i: nat)
    requires |t| == |l|
    ensures MatchAt(t, l, i).Some? <==> exists e: nat :: AbstractPattern(l, i, e)
  {
    if exists e: nat :: AbstractPattern(l, i, e) {
      var p := i + 8;
      var m := Run(l, p, IsSeparator);
      var e: nat :| AbstractPattern(l, i, e);
      KeywordNotSeparator(l, e);
      assert e >= p + m;
      if FirstKeywordFrom(l, p + m + 1).None? {
        assert e == p + m;
      }
    }
    if MatchAt(t, l, i).Some? {
      var p := i + 8;
      var m := Run(l, p, IsSeparator);
      assert m >= 1;
      match FirstKeywordFrom(l, p + m + 1)
      case Some(e) => {
        assert AbstractPattern(l, i, e);
      }
      case None => {
        assert AbstractPattern(l, i, p + m);
      }
    }
  }

  /** The pattern can be laid out somewhere in the lower-cased text. */
  ghost predicate AbstractPresent(l: string) {
    exists i: nat, e: nat :: AbstractPattern(l, i, e)
  }

  lemma FirstMatchIff(t: string, l: string)
    requires |t| == |l|
    ensures FirstMatchFrom(t, l, 0).Some? <==> AbstractPresent(l)
  {
    if FirstMatchFrom(t, l, 0).None? {
      forall i: nat, e: nat ensures !AbstractPattern(l, i, e) {
        MatchAtIff(t, l, i);
      }
    } else {
      var i := FirstMatchIndex(t, l, 0);
      MatchAtIff(t, l, i);
      var e: nat :| AbstractPattern(l, i, e);
    }
  }

  /** The abstract is found exactly when "abstract" (in any letter case)
      is followed by a separator and, two or more characters after the
      word, by "introduction" or "keywords". */
  lemma AbstractFoundIff(text: string)
    ensures AbstractCapture(text).Some? <==> AbstractPresent(ToLower(text))
  {
    FirstMatchIff(text, ToLower(text));
  }

  /** Where the leftmost match starts, when there is one. */
  function FirstMatchIndex(t: string, l: string, i: nat): (k: nat)
    requires |t| == |l| && FirstMatchFrom(t, l, i).Some?
    ensures MatchAt(t, l, k).Some?
    decreases |l| + 1 - i
  {
    if MatchAt(t, l, i).Some? then i else FirstMatchIndex(t, l, i + 1)
  }

  /** An APA-style citation anywhere in the text is found. */
  lemma ApaCitationFound(before: string, name: string, year: string, after: string)
    requires |name| >= 1 && IsUpper(name[0]) && forall k :: 1 <= k < |name| ==> IsLower(name[k])
    requires |name| >= 2
    requires |year| == 4 && forall k :: 0 <= k < 4 ==> IsDigit(year[k])
    ensures HasApaCitation(before + "(" + name + ", " + year + ")" + after)
  {
    var s := before + "(" + name + ", " + year + ")" + after;
    var i := |before|;
    CitationChars(before, name, year, after);
    assert IsUpper(s[i + 1]) by {
      assert s[i + 1] == name[0];
    }
    forall k | i + 2 <= k < i + 1 + |name| ensures IsLower(s[k]) {
      assert s[k] == name[k - i - 1];
    }
    forall k | i + 3 + |name| <= k < i + 7 + |name| ensures IsDigit(s[k]) {
      assert s[k] == year[k - i - 3 - |name|];
    }
    ApaAtShape(s, i, |name|);
    assert ApaAt(s, |before|);
  }

  /** A citation of the shape `(Name, yyyy)` with a name of `n` letters
      matches where it starts. */
  lemma ApaAtShape(s: string, i: nat, n: nat)
    requires n >= 2 && i + n + 8 <= |s|
    requires s[i] == '(' && IsUpper(s[i + 1])
    requires forall k :: i + 2 <= k < i + 1 + n ==> IsLower(s[k])
    requires s[i + 1 + n] == ',' && s[i + 2 + n] == ' '
    requires forall k :: i + 3 + n <= k < i + 7 + n ==> IsDigit(s[k])
    requires s[i + 7 + n] == ')'
    ensures ApaAt(s, i)
  {
    var j := i + 1 + n;
    RunExact(s, i + 2, n - 1, IsLower);
    assert IsDigit(s[j + 2]);
    RunExact(s, j + 1, 1, IsWhitespace);
  }

  /** Where each piece of a citation sits in the joined text. */
  lemma CitationChars(before: string, name: string, year: string, after: string)
    requires |name| >= 2 && |year| == 4
    ensures var s := before + "(" + name + ", " + year + ")" + after;
      var i := |before|;
      var j := i + 1 + |name|;
      |s| == j + 7 + |after| && s[i] == '(' && s[j] == ',' && s[j + 1] == ' ' && s[j + 6] == ')'
      && !IsLower(s[j])
      && (forall k :: i + 1 <= k < j ==> s[k] == name[k - i - 1])
      && (forall k :: j + 2 <= k < j + 6 ==> s[k] == year[k - j - 2])
  {
    var s := before + "(" + name + ", " + year + ")" + after;
    var i := |before|;
    var j := i + 1 + |name|;
    var m := before + "(" + name;
    assert s == m + (", " + year + ")" + after);
    assert |m| == j;
    forall k | i + 1 <= k < j ensures s[k] == name[k - i - 1] {
      assert m[k] == name[k - i - 1];
    }
    var t := ", " + year + ")" + after;
    assert t[0] == ',' && t[1] == ' ' && t[6] == ')';
    forall k | j + 2 <= k < j + 6 ensures s[k] == year[k - j - 2] {
      assert t[k - j] == year[k - j - 2];
    }
  }

  /** A run is as long as its characters satisfy `p` and the next does not. */
  lemma {:induction false} RunExact(s: string, i: nat, n: nat, p: char -> bool)
    requires i + n <= |s|
    requires forall k :: i <= k < i + n ==> p(s[k])
    requires i + n < |s| && !p(s[i + n])
    ensures Run(s, i, p) == n
    decreases n
  {
    if n > 0 {
      RunExact(s, i + 1, n - 1, p);
    }
  }

  /** The checked count can exceed the displayed one: leading white space
      gives an extra empty part. */
  lemma CheckedCountsLeadingSpace()
    ensures CheckedWordCount(" a") == 2 && DisplayedWordCount(" a") == 1
    ensures forall text :: DisplayedWordCount(text) <= CheckedWordCount(text)
  {
    assert TrimStart(" a") == "a";
    assert !IsWhitespace('a') && "a"[1..] == "";
    assert SplitWhitespace("") == [""];
    assert SplitWhitespace("a") == [['a'] + ""] + [""][1..];
    assert ['a'] + "" == "a";
    assert [""][1..] == [];
    assert SplitWhitespace("a") == ["a"];
  }
}
