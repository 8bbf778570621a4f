/** The text-to-events core of `extract_events`: keyword filtering of
    lines, the date matches of each kept line, and the single-date or
    range dispatch of each match, skipping the ones that do not parse. */
module Extract {
  import opened Outcomes
  import opened Seqs
  import opened Text
  import opened Numerals
  import opened Dates
  import opened DateParse
  import opened DatePattern
  import opened Description

  /** `KEYWORDS`: a line is considered only when its lower-case form
      contains one of these. */
  const Keywords: seq<string> := [
    "college closed",
    "start of classes",
    "start of spring term",
    "start of fall term",
    "first day of saturday classes",
    "last day of classes",
    "no classes",
    "final exam",
    "final examinations",
    "classes follow",
    "end of",
    "spring recess"
  ]

  /** The name a calendar event gets when its description is empty. */
  const FallbackName: string := "Academic Event"

  /** `any(keyword in line_lower for keyword in KEYWORDS)`: some keyword
      occurs somewhere in the lower-cased line. */
  predicate HasKeyword(lower: string): (b: bool)
    ensures b <==> exists i, k :: 0 <= i < |Keywords| && OccursAt(lower, Keywords[i], k)
  {
    KeywordsOccur(lower);
    exists i :: 0 <= i < |Keywords| && Contains(lower, Keywords[i])
  }

  lemma KeywordsOccur(lower: string)
    ensures forall i :: 0 <= i < |Keywords| ==>
      (Contains(lower, Keywords[i]) <==> exists k :: OccursAt(lower, Keywords[i], k))
  {
    forall i | 0 <= i < |Keywords|
      ensures Contains(lower, Keywords[i]) <==> exists k :: OccursAt(lower, Keywords[i], k)
    {
      ContainsIffOccurs(lower, Keywords[i]);
    }
  }

  /** When an event happens: one day, or from a start date to an end date
      as the two ends of a range token were read. */
  datatype Occurrence = OnDay(date: Date) | Span(start: Date, end: Date)

  /** One entry of `events_list` — the matched token and its description —
      together with the date or dates its calendar event was given. */
  datatype Record = Record(token: string, description: string, occurrence: Occurrence)

  /** The calendar event built from a record, before serialisation. */
  datatype Entry = Entry(name: string, begin: Date, end: Option<Date>)

  /** `event.name = description or "Academic Event"`, with `begin` and, for
      a range, `end`. */
  function ToEntry(r: Record): (e: Entry)
    ensures e.name != ""
    ensures r.description != "" ==> e.name == r.description
    ensures r.description == "" ==> e.name == FallbackName
    ensures e.end.Some? <==> r.occurrence.Span?
    ensures r.occurrence.OnDay? ==> e.begin == r.occurrence.date
    ensures r.occurrence.Span? ==> e.begin == r.occurrence.start && e.end == Some(r.occurrence.end)
  {
    var name := if r.description == "" then FallbackName else r.description;
    match r.occurrence
    case OnDay(d) => Entry(name, d, None)
    case Span(a, b) => Entry(name, a, Some(b))
  }

  // ---------------------------------------------------------------------
  // `extract_events`, step by step

  /** The handling of one match of a kept line: a range when the token
      holds `-` or `–` (both ends must parse), otherwise a single date; a
      token that does not parse adds nothing. */
  function ProcessMatch(line: string, token: string): (rs: seq<Record>)
    ensures |rs| <= 1
    ensures forall r :: r in rs ==> r.token == token && r.description == Clean(line, token)
  {
    var description := Clean(line, token);
    if HasRangeSep(token) then
      var parts := Split(token, RangeSeps);
      if |parts| == 2 then
        match (ParseDateString(Strip(parts[0], Whitespace)), ParseDateString(Strip(parts[1], Whitespace)))
        case (Ok(a), Ok(b)) => [Record(token, description, Span(a, b))]
        case _ => []
      else []
    else
      match ParseDateString(token)
      case Ok(d) => [Record(token, description, OnDay(d))]
      case Err(_) => []
  }

  /** The loop over the matches of one line, in order: at most one record
      per match, each carrying its match and that match's description. */
  function ProcessMatches(line: string, tokens: seq<string>): (rs: seq<Record>)
    ensures |rs| <= |tokens|
    ensures forall r :: r in rs ==> r.token in tokens && r.description == Clean(line, r.token)
  {
    var f := m => ProcessMatch(line, m);
    ConcatMapAtMostOne(f, tokens);
    ConcatMapMember(f, tokens);
    ConcatMap(f, tokens)
  }

  /** One line: skipped unless it holds a keyword, else its matches. */
  function ExtractLine(line: string): (rs: seq<Record>)
    ensures !HasKeyword(Lower(line)) ==> rs == []
    ensures |rs| <= |FindAll(line)|
    ensures forall r :: r in rs ==> r.token in FindAll(line) && r.description == Clean(line, r.token)
  {
    if !HasKeyword(Lower(line)) then [] else ProcessMatches(line, FindAll(line))
  }

  /** The loop over the lines of one page. */
  function ExtractLines(lines: seq<string>): seq<Record>
  {
    ConcatMap(ExtractLine, lines)
  }

  /** The lines of one page of text: none for an empty page, else its
      `\n`-separated lines. */
  function PageLines(text: string): seq<string>
  {
    if text == "" then [] else Split(text, {'\n'})
  }

  /** The records of one page: an empty page has none, and each record
      comes from one of its lines. */
  function ExtractPage(text: string): (rs: seq<Record>)
    ensures text == "" ==> rs == []
    ensures forall r :: r in rs ==> exists j :: 0 <= j < |PageLines(text)| && r in ExtractLine(PageLines(text)[j])
  {
    ConcatMapMember(ExtractLine, PageLines(text));
    ExtractLines(PageLines(text))
  }

  /** `events_list` for a document given as its pages' text: each record
      comes from one of its pages. */
  function ExtractEvents(pages: seq<string>): (rs: seq<Record>)
    ensures forall r :: r in rs ==> exists i :: 0 <= i < |pages| && r in ExtractPage(pages[i])
  {
    ConcatMapMember(ExtractPage, pages);
    ConcatMap(ExtractPage, pages)
  }

  // ---------------------------------------------------------------------
  // A reference reading of the matches

  /** The date a token of the pattern names, read off its digit groups:
      month, day, and either the default year or the written one, with a
      value below 100 meaning 20YY. */
  function TokenDate(t: string): Date
    requires IsDateToken(t)
  {
    var ps := Split(t, {'/'});
    var y := if |ps| == 2 then DefaultYear else DigitsValue(ps[2]);
    Date(if y < 100 then 2000 + y else y, DigitsValue(ps[0]), DigitsValue(ps[1]))
  }

  /** The start and end tokens of a range match. */
  function RangeStart(m: string): string
    requires IsMatchShape(m) && HasRangeSep(m)
  {
    Strip(Split(m, RangeSeps)[0], Whitespace)
  }

  function RangeEnd(m: string): string
    requires IsMatchShape(m) && HasRangeSep(m)
  {
    Strip(Split(m, RangeSeps)[1], Whitespace)
  }

  /** A match names real calendar dates: both ends for a range, each on its
      own, and no order between them required. */
  predicate Resolves(m: string)
    requires IsMatchShape(m)
  {
    if HasRangeSep(m) then ValidDate(TokenDate(RangeStart(m))) && ValidDate(TokenDate(RangeEnd(m)))
    else ValidDate(TokenDate(m))
  }

  function Resolve(m: string): Occurrence
    requires IsMatchShape(m)
  {
    if HasRangeSep(m) then Span(TokenDate(RangeStart(m)), TokenDate(RangeEnd(m)))
    else OnDay(TokenDate(m))
  }

  /** The records a line should yield: one per match that resolves, in
      match order, the others dropped. */
  function Expected(line: string, tokens: seq<string>): seq<Record>
    requires forall t :: t in tokens ==> IsMatchShape(t)
    decreases |tokens|
  {
    if |tokens| == 0 then []
    else
      var m := tokens[|tokens| - 1];
      var here := if Resolves(m) then [Record(m, Clean(line, m), Resolve(m))] else [];
      Expected(line, tokens[..|tokens| - 1]) + here
  }

  // ---------------------------------------------------------------------
  // Properties

  /** A date token parses to the date its digits name exactly when that
      date exists; otherwise it fails, and never becomes another date. */
  lemma TokenParses(t: string)
    requires IsDateToken(t)
    ensures ParseDateString(t).Ok? <==> ValidDate(TokenDate(t))
    ensures ParseDateString(t).Ok? ==> ParseDateString(t).value == TokenDate(t)
  {
    DateTokenParse(t);
  }

  /** One match of the pattern is handled as the reference reading says:
      a record with the dates its digits name when they exist, nothing
      otherwise. */
  lemma ProcessMatchResolves(line: string, m: string)
    requires IsMatchShape(m)
    ensures ProcessMatch(line, m) == if Resolves(m) then [Record(m, Clean(line, m), Resolve(m))] else []
  {
    if HasRangeSep(m) {
      TokenParses(RangeStart(m));
      TokenParses(RangeEnd(m));
    } else {
      TokenParses(m);
    }
  }

  /** `M/D` in one- or two-digit groups is a date token in the default
      year. */
  lemma MonthDayToken(ms: string, ds: string)
    requires IsNumeral(ms, 1, 2) && IsNumeral(ds, 1, 2)
    ensures IsBareDateToken(ms + "/" + ds)
    ensures TokenDate(ms + "/" + ds) == Date(DefaultYear, DigitsValue(ms), DigitsValue(ds))
  {
    JoinTwo(ms, ds, "/");
    TokenDateOfGroups([ms, ds]);
  }

  /** `M/D/Y` with a two- to four-digit year is a date token in that year,
      20YY when it is below 100. */
  lemma MonthDayYearToken(ms: string, ds: string, ys: string)
    requires IsNumeral(ms, 1, 2) && IsNumeral(ds, 1, 2) && IsNumeral(ys, 2, 4)
    ensures IsBareDateToken(ms + "/" + ds + "/" + ys)
    ensures var y := DigitsValue(ys);
      TokenDate(ms + "/" + ds + "/" + ys) == Date(if y < 100 then 2000 + y else y, DigitsValue(ms), DigitsValue(ds))
  {
    JoinThree(ms, ds, ys, "/");
    TokenDateOfGroups([ms, ds, ys]);
  }

  /** Digit groups joined by `/` form a bare token naming the date the
      groups spell. */
  lemma TokenDateOfGroups(groups: seq<string>)
    requires |groups| == 2 || |groups| == 3
    requires IsNumeral(groups[0], 1, 2) && IsNumeral(groups[1], 1, 2)
    requires |groups| == 3 ==> IsNumeral(groups[2], 2, 4)
    ensures IsBareDateToken(JoinWith(groups, "/"))
    ensures var y := if |groups| == 2 then DefaultYear else DigitsValue(groups[2]);
      TokenDate(JoinWith(groups, "/")) == Date(if y < 100 then 2000 + y else y, DigitsValue(groups[0]), DigitsValue(groups[1]))
  {
    BareTokenOfGroups(groups);
  }

  /** A range of two date tokens becomes one spanning event when both
      ends name real dates, each end read on its own: nothing compares
      them, and an end written without a year is in the default year
      whatever year the start names. */
  lemma RangeRecord(line: string, tok1: string, ws1: string, sep: char, ws2: string, tok2: string)
    requires IsBareDateToken(tok1) && IsBareDateToken(tok2)
    requires AllIn(ws1, Whitespace) && AllIn(ws2, Whitespace) && sep in RangeSeps
    ensures var t := tok1 + ws1 + [sep] + ws2 + tok2;
      ProcessMatch(line, t) ==
        if ValidDate(TokenDate(tok1)) && ValidDate(TokenDate(tok2))
        then [Record(t, Clean(line, t), Span(TokenDate(tok1), TokenDate(tok2)))]
        else []
  {
    var t := tok1 + ws1 + [sep] + ws2 + tok2;
    RangeShape(tok1, ws1, sep, ws2, tok2);
    assert RangeStart(t) == tok1 && RangeEnd(t) == tok2;
    ProcessMatchResolves(line, t);
  }

  /** A range of two date tokens naming real dates `a` and `b` becomes
      the one event from `a` to `b`. */
  lemma RangeRecordOf(line: string, tok1: string, ws1: string, sep: char, ws2: string, tok2: string, a: Date, b: Date)
    requires IsBareDateToken(tok1) && IsBareDateToken(tok2)
    requires AllIn(ws1, Whitespace) && AllIn(ws2, Whitespace) && sep in RangeSeps
    requires TokenDate(tok1) == a && TokenDate(tok2) == b && ValidDate(a) && ValidDate(b)
    ensures var t := tok1 + ws1 + [sep] + ws2 + tok2;
      ProcessMatch(line, t) == [Record(t, Clean(line, t), Span(a, b))]
  {
    RangeRecord(line, tok1, ws1, sep, ws2, tok2);
  }

  /** `5/10-5/5`: a range that ends before it starts is kept as written. */
  lemma InvertedRangeKept(line: string)
    ensures var t := "5/10-5/5";
      && ProcessMatch(line, t) == [Record(t, Clean(line, t), Span(Date(2025, 5, 10), Date(2025, 5, 5)))]
      && Before(Date(2025, 5, 5), Date(2025, 5, 10))
  {
    var tok1, tok2 := "5/10", "5/5";
    InvertedExampleTokens();
    InvertedExampleLine();
    RangeRecordOf(line, tok1, "", '-', "", tok2, Date(2025, 5, 10), Date(2025, 5, 5));
  }

  /** `1/5/2026 - 1/10`: the end does not take the start's year. */
  lemma RangeEndYearNotInherited(line: string)
    ensures var t := "1/5/2026 - 1/10";
      ProcessMatch(line, t) == [Record(t, Clean(line, t), Span(Date(2026, 1, 5), Date(2025, 1, 10)))]
  {
    var tok1, tok2 := "1/5/2026", "1/10";
    YearExampleTokens();
    YearExampleLine();
    RangeRecordOf(line, tok1, " ", '-', " ", tok2, Date(2026, 1, 5), Date(2025, 1, 10));
  }

  /** The two example ranges, assembled from their parts. */
  lemma InvertedExampleLine()
    ensures "5/10" + "" + ['-'] + "" + "5/5" == "5/10-5/5"
  {
  }

  lemma YearExampleLine()
    ensures "1/5/2026" + " " + ['-'] + " " + "1/10" == "1/5/2026 - 1/10"
  {
  }

  /** The tokens of the inverted-range example and the dates they name. */
  lemma InvertedExampleTokens()
    ensures IsBareDateToken("5/10") && TokenDate("5/10") == Date(2025, 5, 10)
    ensures IsBareDateToken("5/5") && TokenDate("5/5") == Date(2025, 5, 5)
  {
    ExampleValues();
    MonthDayExample("5", "10", "5/10");
    MonthDayExample("5", "5", "5/5");
  }

  /** The tokens of the year example and the dates they name. */
  lemma YearExampleTokens()
    ensures IsBareDateToken("1/5/2026") && TokenDate("1/5/2026") == Date(2026, 1, 5)
    ensures IsBareDateToken("1/10") && TokenDate("1/10") == Date(2025, 1, 10)
  {
    ExampleValues();
    MonthDayExample("1", "10", "1/10");
    MonthDayYearExample("1", "5", "2026", "1/5/2026");
  }

  lemma MonthDayYearExample(ms: string, ds: string, ys: string, t: string)
    requires IsNumeral(ms, 1, 2) && IsNumeral(ds, 1, 2) && IsNumeral(ys, 2, 4)
    requires t == ms + "/" + ds + "/" + ys && DigitsValue(ys) >= 100
    ensures IsBareDateToken(t) && TokenDate(t) == Date(DigitsValue(ys), DigitsValue(ms), DigitsValue(ds))
  {
    MonthDayYearToken(ms, ds, ys);
  }

  lemma MonthDayExample(ms: string, ds: string, t: string)
    requires IsNumeral(ms, 1, 2) && IsNumeral(ds, 1, 2) && t == ms + "/" + ds
    ensures IsBareDateToken(t) && TokenDate(t) == Date(DefaultYear, DigitsValue(ms), DigitsValue(ds))
  {
    MonthDayToken(ms, ds);
  }

  lemma ExampleValues()
    ensures DigitsValue("1") == 1 && DigitsValue("5") == 5
    ensures DigitsValue("10") == 10 && DigitsValue("2026") == 2026
  {
    assert "10"[..1] == "1";
    assert "2026"[..3] == "202" && "202"[..2] == "20" && "20"[..1] == "2";
    assert DigitsValue("2") == 2;
    assert DigitsValue("20") == 20;
    assert DigitsValue("202") == 202;
  }

  /** A calendar line from start to finish: `Monday 9/2 Start of Classes`
      passes the keyword filter, holds the one match `9/2`, and yields one
      event on 2 September of the default year, named after the line with
      the date and the leading weekday removed. */
  lemma MondayLineExample()
    ensures ExtractLine("Monday 9/2 Start of Classes")
      == [Record("9/2", "Start of Classes", OnDay(Date(2025, 9, 2)))]
  {
    var line := "Monday 9/2 Start of Classes";
    MondayLineKeyword();
    MondayLineMatch();
    MondayLineDescription();
    MondayLineRecord(line);
    SingleMatch(line, "9/2");
  }

  /** A line ending in a keyword, written in any case, passes the filter. */
  lemma KeywordSuffix(pre: string, tail: string, i: nat)
    requires i < |Keywords| && Lower(tail) == Keywords[i]
    ensures HasKeyword(Lower(pre + tail))
  {
    LowerAppend(pre, tail);
    OccursAtEnd(Lower(pre), Keywords[i]);
  }

  /** The example line ends in `Start of Classes`. */
  lemma MondayLineKeyword()
    ensures HasKeyword(Lower("Monday 9/2 Start of Classes"))
  {
    assert Lower("Start of Classes") == "start of classes";
    assert Keywords[1] == "start of classes";
    assert "Monday 9/2 " + "Start of Classes" == "Monday 9/2 Start of Classes";
    KeywordSuffix("Monday 9/2 ", "Start of Classes", 1);
  }

  /** The example line's only match is `9/2`. */
  lemma MondayLineMatch()
    ensures FindAll("Monday 9/2 Start of Classes") == ["9/2"]
  {
    MonthDayToken("9", "2");
    assert "9" + "/" + "2" == "9/2";
    assert "Monday " + "9/2" + " Start of Classes" == "Monday 9/2 Start of Classes";
    FindAllSoleToken("Monday ", "9/2", " Start of Classes");
  }

  /** The example line's description: the date cut out and the weekday
      dropped. */
  lemma MondayLineDescription()
    ensures Clean("Monday 9/2 Start of Classes", "9/2") == "Start of Classes"
  {
    var rest := ["Start", "of", "Classes"];
    MondayLineShape(rest);
    CleanWeekdayDateLine("Monday", "9/2", rest);
  }

  /** The example line is a weekday, a date and three words. */
  lemma MondayLineShape(rest: seq<string>)
    requires rest == ["Start", "of", "Classes"]
    ensures WeekdayDateLine("Monday", "9/2", rest)
    ensures "Monday" + " " + "9/2" + " " + JoinWith(rest, " ") == "Monday 9/2 Start of Classes"
    ensures JoinWith(rest, " ") == "Start of Classes"
  {
    WeekdayExamples();
    MondayLineWords();
    MondayLineText();
    assert forall i :: 0 <= i < |rest| ==> IsWord(rest[i]);
  }

  /** The example's words, joined, and the line they make. */
  lemma MondayLineText()
    ensures JoinWith(["Start", "of", "Classes"], " ") == "Start of Classes"
    ensures "Monday" + " " + "9/2" + " " + "Start of Classes" == "Monday 9/2 Start of Classes"
    ensures NoDigits("Monday") && NoDigits("Start of Classes") && Untrimmed("Start of Classes")
  {
    JoinThree("Start", "of", "Classes", " ");
  }

  /** The words of the example line are words. */
  lemma MondayLineWords()
    ensures IsWord("Monday") && IsWord("Start") && IsWord("of") && IsWord("Classes")
  {
    LettersWord("Monday");
    LettersWord("Start");
    LettersWord("of");
    LettersWord("Classes");
  }

  /** The example's match makes a one-day record on 2 September. */
  lemma MondayLineRecord(line: string)
    ensures ProcessMatch(line, "9/2") == [Record("9/2", Clean(line, "9/2"), OnDay(Date(2025, 9, 2)))]
  {
    MonthDayToken("9", "2");
    assert "9" + "/" + "2" == "9/2";
    assert DigitsValue("9") == 9 && DigitsValue("2") == 2;
    ProcessMatchResolves(line, "9/2");
  }

  /** A line with a single match yields what that match yields. */
  lemma SingleMatch(line: string, m: string)
    requires HasKeyword(Lower(line)) && FindAll(line) == [m]
    ensures ExtractLine(line) == ProcessMatch(line, m)
  {
    var f := m' => ProcessMatch(line, m');
    assert [m][..0] == [];
    assert ConcatMap(f, [m]) == f(m);
  }

  /** A match that fails to parse adds nothing and does not stop the
      matches after it. */
  lemma SkipFailingMatch(line: string, before: seq<string>, m: string, after: seq<string>)
    requires ProcessMatch(line, m) == []
    ensures ProcessMatches(line, before + [m] + after) == ProcessMatches(line, before) + ProcessMatches(line, after)
  {
    var f := m' => ProcessMatch(line, m');
    var front := before + [m];
    ConcatMapAppend(f, front, after);
    assert front[..|front| - 1] == before;
    assert front[|front| - 1] == m;
    var none := f(m);
    assert ConcatMap(f, front) == ConcatMap(f, before) + none;
    assert ConcatMap(f, before) + none == ConcatMap(f, before);
  }

  /** The loop over matches agrees with the reference reading. */
  lemma {:induction false} ProcessMatchesExpected(line: string, tokens: seq<string>)
    requires forall t :: t in tokens ==> IsMatchShape(t)
    ensures ProcessMatches(line, tokens) == Expected(line, tokens)
    decreases |tokens|
  {
    if |tokens| > 0 {
      var front := tokens[..|tokens| - 1];
      var m := tokens[|tokens| - 1];
      ProcessMatchResolves(line, m);
      ProcessMatchesExpected(line, front);
    }
  }

  /** A line yields exactly the resolving matches of the pattern, in
      order, when it holds a keyword, and nothing otherwise, whatever
      dates it contains. */
  lemma ExtractLineSpec(line: string)
    ensures forall t :: t in FindAll(line) ==> IsMatchShape(t)
    ensures ExtractLine(line) == if HasKeyword(Lower(line)) then Expected(line, FindAll(line)) else []
  {
    ProcessMatchesExpected(line, FindAll(line));
  }

  /** Every record a line yields comes from a match of the pattern in
      that line, carries that match's cleaned description, and holds dates
      that exist on the calendar. */
  lemma {:induction false} ExpectedRecords(line: string, tokens: seq<string>)
    requires forall t :: t in tokens ==> IsMatchShape(t)
    ensures forall r :: r in Expected(line, tokens) ==>
      && r.token in tokens
      && IsMatchShape(r.token)
      && Resolves(r.token)
      && r.description == Clean(line, r.token)
      && r.occurrence == Resolve(r.token)
    decreases |tokens|
  {
    if |tokens| > 0 {
      ExpectedRecords(line, tokens[..|tokens| - 1]);
    }
  }

  /** The records of a line in terms of the line alone. */
  lemma LineRecords(line: string)
    ensures forall r :: r in ExtractLine(line) ==>
      && HasKeyword(Lower(line))
      && r.token in FindAll(line)
      && IsMatchShape(r.token)
      && Resolves(r.token)
      && r.description == Clean(line, r.token)
      && r.occurrence == Resolve(r.token)
  {
    ExtractLineSpec(line);
    ExpectedRecords(line, FindAll(line));
  }

  /** The lines the extractor looks at: those of every non-empty page, in
      document order. */
  function DocumentLines(pages: seq<string>): seq<string>
  {
    ConcatMap(PageLines, pages)
  }

  /** Pages are processed one after another: the document's records are
      those of its lines, in order. */
  lemma {:induction false} ExtractEventsByLines(pages: seq<string>)
    ensures ExtractEvents(pages) == ExtractLines(DocumentLines(pages))
    decreases |pages|
  {
    if |pages| > 0 {
      var front := pages[..|pages| - 1];
      ExtractEventsByLines(front);
      ConcatMapAppend(ExtractLine, DocumentLines(front), PageLines(pages[|pages| - 1]));
    }
  }

  /** Every record of a document comes from one of its lines that holds a
      keyword, from a match of the pattern in that line that resolves to
      real dates, and carries that match's cleaned description. */
  lemma DocumentRecords(pages: seq<string>)
    ensures forall r :: r in ExtractEvents(pages) ==>
      exists i :: 0 <= i < |DocumentLines(pages)| && r in ExtractLine(DocumentLines(pages)[i])
        && HasKeyword(Lower(DocumentLines(pages)[i]))
        && r.token in FindAll(DocumentLines(pages)[i])
        && IsMatchShape(r.token)
        && Resolves(r.token)
        && r.description == Clean(DocumentLines(pages)[i], r.token)
  {
    var lines := DocumentLines(pages);
    ExtractEventsByLines(pages);
    ConcatMapMember(ExtractLine, lines);
    forall i | 0 <= i < |lines|
      ensures forall r :: r in ExtractLine(lines[i]) ==>
        && HasKeyword(Lower(lines[i]))
        && r.token in FindAll(lines[i])
        && IsMatchShape(r.token)
        && Resolves(r.token)
        && r.description == Clean(lines[i], r.token)
    {
      LineRecords(lines[i]);
    }
  }

  /** A document none of whose lines holds a keyword yields no events,
      whatever dates it contains. */
  lemma NoKeywordNoEvents(pages: seq<string>)
    requires forall i :: 0 <= i < |DocumentLines(pages)| ==> !HasKeyword(Lower(DocumentLines(pages)[i]))
    ensures ExtractEvents(pages) == []
  {
    ExtractEventsByLines(pages);
    ConcatMapNone(ExtractLine, DocumentLines(pages));
  }

  // ---------------------------------------------------------------------
  // The extraction loop as written

  /** The inner loop of `extract_events`: each match of a kept line in
      turn, a failing one skipped by `continue`. */
  method ProcessMatchesLoop(line: string, matches: seq<string>) returns (events: seq<Record>)
    ensures events == ProcessMatches(line, matches)
  {
    events := [];
    var k := 0;
    while k < |matches|
      invariant 0 <= k <= |matches|
      invariant events == ProcessMatches(line, matches[..k])
    {
      assert matches[..k + 1][..k] == matches[..k];
      events := events + ProcessMatch(line, matches[k]);
      k := k + 1;
    }
    assert matches[..k] == matches;
  }

  /** The loop over the lines of one page, keyword-less lines skipped. */
  method ExtractLinesLoop(lines: seq<string>) returns (events: seq<Record>)
    ensures events == ExtractLines(lines)
  {
    events := [];
    var l := 0;
    while l < |lines|
      invariant 0 <= l <= |lines|
      invariant events == ExtractLines(lines[..l])
    {
      assert lines[..l + 1][..l] == lines[..l];
      var line := lines[l];
      var found: seq<Record> := [];
      if HasKeyword(Lower(line)) {
        found := ProcessMatchesLoop(line, FindAll(line));
      }
      events := events + found;
      l := l + 1;
    }
    assert lines[..l] == lines;
  }

  /** One page: an empty page is skipped by `continue`, else its lines. */
  method ExtractPageLoop(text: string) returns (events: seq<Record>)
    ensures events == ExtractPage(text)
  {
    if text == "" {
      events := [];
    } else {
      events := ExtractLinesLoop(Split(text, {'\n'}));
    }
  }

  /** `extract_events` over the pages of a document. */
  method ExtractEventsLoop(pages: seq<string>) returns (events: seq<Record>)
    ensures events == ExtractEvents(pages)
  {
    events := [];
    var p := 0;
    while p < |pages|
      invariant 0 <= p <= |pages|
      invariant events == ExtractEvents(pages[..p])
    {
      assert pages[..p + 1][..p] == pages[..p];
      var found := ExtractPageLoop(pages[p]);
      events := events + found;
      p := p + 1;
    }
    assert pages[..p] == pages;
  }
}
