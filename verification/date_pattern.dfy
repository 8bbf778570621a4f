/** `re.findall(date_pattern, line)` for the one pattern the extractor uses:

      \b\d{1,2}/\d{1,2}(?:/\d{2,4})?\b(?:\s*[-–]\s*\d{1,2}/\d{1,2}(?:/\d{2,4})?)?

    The scanner below returns, at each position, the match the backtracking
    engine settles on (greedy counts tried longest first), and resumes after
    each match as `findall` does. */
module DatePattern {
  import opened Outcomes
  import opened Text
  import opened Numerals
  import opened Dates
  import opened DateParse

  const EnDash: char := '\U{2013}'

  /** The separators of a range: hyphen and en dash. */
  const RangeSeps: set<char> := {'-', EnDash}

  /** Length of the run of digits that starts at `i`. */
  function DigitRun(s: string, i: nat): (n: nat)
    requires i <= |s|
    ensures i + n <= |s|
    ensures forall k :: i <= k < i + n ==> IsDigit(s[k])
    ensures i + n == |s| || !IsDigit(s[i + n])
    decreases |s| - i
  {
    if i < |s| && IsDigit(s[i]) then 1 + DigitRun(s, i + 1) else 0
  }

  /** Length of the run of whitespace (`\s*`) that starts at `i`. */
  function SpaceRun(s: string, i: nat): (n: nat)
    requires i <= |s|
    ensures i + n <= |s|
    ensures forall k :: i <= k < i + n ==> s[k] in Whitespace
    ensures i + n == |s| || s[i + n] !in Whitespace
    decreases |s| - i
  {
    if i < |s| && s[i] in Whitespace then 1 + SpaceRun(s, i + 1) else 0
  }

  /** `\b` in front of a word character at `i`. */
  predicate BoundaryBefore(s: string, i: nat)
    requires i <= |s|
  {
    i == 0 || !IsWordChar(s[i - 1])
  }

  /** `\b` behind a word character that ends at `k`. */
  predicate BoundaryAfter(s: string, k: nat)
    requires k <= |s|
  {
    k == |s| || !IsWordChar(s[k])
  }

  /** The first half, `\b\d{1,2}/\d{1,2}(?:/\d{2,4})?\b`, at `i`: the end of
      the match, if any. Month and day must be whole digit runs, since a
      shorter count leaves a digit where `/` or `\b` is needed; the year
      is taken only when a whole run of two to four digits ends at a word
      boundary, and is otherwise left for the next match. */
  function MatchDate(s: string, i: nat): (e: Option<nat>)
    requires i <= |s|
    ensures e.Some? ==> i + 3 <= e.value <= |s|
  {
    var m := DigitRun(s, i);
    if !BoundaryBefore(s, i) || m < 1 || m > 2 || i + m >= |s| || s[i + m] != '/' then None
    else
      var j := i + m + 1;
      var d := DigitRun(s, j);
      var k := j + d;
      if d < 1 || d > 2 then None
      else if k < |s| && s[k] == '/' then
        var y := DigitRun(s, k + 1);
        if 2 <= y <= 4 && BoundaryAfter(s, k + 1 + y) then Some(k + 1 + y) else Some(k)
      else if BoundaryAfter(s, k) then Some(k)
      else None
  }

  /** The optional second half at `p`: a separator, then a date. */
  function MatchRangeEnd(s: string, p: nat): (e: Option<nat>)
    requires p <= |s|
    ensures e.Some? ==> p + 4 <= e.value <= |s|
  {
    match MatchSeparator(s, p)
    case None => None
    case Some(q) => MatchEndDate(s, q)
  }

  /** `\s*[-–]\s*` at `p`: where the date after it starts. */
  function MatchSeparator(s: string, p: nat): (q: Option<nat>)
    requires p <= |s|
    ensures q.Some? ==> p + 1 <= q.value <= |s|
  {
    var a := p + SpaceRun(s, p);
    if a >= |s| || s[a] !in RangeSeps then None
    else Some(a + 1 + SpaceRun(s, a + 1))
  }

  /** The date that ends a range, `\d{1,2}/\d{1,2}(?:/\d{2,4})?`, at `q`.
      Nothing follows it in the pattern, so the greedy day and year counts
      are final: at most two day digits and at most four year digits, with
      no boundary test. */
  function MatchEndDate(s: string, q: nat): (e: Option<nat>)
    requires q <= |s|
    ensures e.Some? ==> q + 3 <= e.value <= |s|
  {
    var m := DigitRun(s, q);
    if m < 1 || m > 2 || q + m >= |s| || s[q + m] != '/' then None
    else
      var j := q + m + 1;
      var d := DigitRun(s, j);
      if d < 1 then None
      else
        var k := j + (if d >= 2 then 2 else 1);
        var y := if k < |s| && s[k] == '/' then DigitRun(s, k + 1) else 0;
        if y >= 2 then Some(k + 1 + (if y >= 4 then 4 else y)) else Some(k)
  }

  /** The whole pattern at `i`. */
  function MatchAt(s: string, i: nat): (e: Option<nat>)
    requires i <= |s|
    ensures e.Some? ==> i + 3 <= e.value <= |s|
  {
    match MatchDate(s, i)
    case None => None
    case Some(e) =>
      match MatchRangeEnd(s, e)
      case Some(e2) => Some(e2)
      case None => Some(e)
  }

  /** `re.findall` from position `i`: leftmost match, then resume at its end. */
  function FindFrom(s: string, i: nat): seq<string>
    requires i <= |s|
    decreases |s| - i
  {
    if i == |s| then []
    else
      match MatchAt(s, i)
      case Some(e) => [s[i..e]] + FindFrom(s, e)
      case None => FindFrom(s, i + 1)
  }

  /** `re.findall(date_pattern, line)`: the matches, left to right, each
      of the shape the pattern describes. */
  function FindAll(s: string): (ts: seq<string>)
    ensures forall t :: t in ts ==> IsMatchShape(t)
  {
    FindFromShapes(s, 0);
    FindFrom(s, 0)
  }

  // ---------------------------------------------------------------------
  // The shape of what the pattern returns

  /** A whole `\d{lo,hi}`. */
  predicate IsNumeral(t: string, lo: nat, hi: nat)
  {
    lo <= |t| <= hi && AllDigits(t)
  }

  /** One date of the pattern: `M/D` or `M/D/Y`, with one- or two-digit
      month and day and a two- to four-digit year. */
  predicate IsDateToken(t: string)
  {
    var ps := Split(t, {'/'});
    && (|ps| == 2 || |ps| == 3)
    && IsNumeral(ps[0], 1, 2)
    && IsNumeral(ps[1], 1, 2)
    && (|ps| == 3 ==> IsNumeral(ps[2], 2, 4))
  }

  /** `extract_events`'s range test: `'-' in match or '–' in match`. */
  predicate HasRangeSep(t: string)
  {
    '-' in t || EnDash in t
  }

  /** What a match of the pattern looks like: a range holds exactly one
      separator, and each side, stripped, is a date token; anything else is
      a single date token. */
  predicate IsMatchShape(t: string)
  {
    if HasRangeSep(t) then
      var ends := Split(t, RangeSeps);
      && |ends| == 2
      && IsDateToken(Strip(ends[0], Whitespace))
      && IsDateToken(Strip(ends[1], Whitespace))
    else IsDateToken(t)
  }

  /** Characters a date token is built from. */
  predicate DigitsAndSlashes(t: string)
  {
    forall k :: 0 <= k < |t| ==> IsDigit(t[k]) || t[k] == '/'
  }

  /** A date token joined from digit groups: its parts are the groups,
      it begins and ends with a digit, and it holds no whitespace and no
      range separator. */
  lemma DateTokenOfGroups(groups: seq<string>)
    requires |groups| == 2 || |groups| == 3
    requires IsNumeral(groups[0], 1, 2) && IsNumeral(groups[1], 1, 2)
    requires |groups| == 3 ==> IsNumeral(groups[2], 2, 4)
    ensures IsDateToken(JoinWith(groups, "/"))
  {
    SplitDigitJoin(groups);
  }

  /** A date token with nothing around it: it starts and ends with a digit
      and holds only digits and slashes. */
  predicate IsBareDateToken(tok: string)
  {
    && IsDateToken(tok)
    && DigitsAndSlashes(tok)
    && |tok| > 0
    && IsDigit(tok[0])
    && IsDigit(tok[|tok| - 1])
  }

  lemma DigitsAndSlashesJoin(g0: string, g1: string)
    requires DigitsAndSlashes(g0) && DigitsAndSlashes(g1)
    ensures DigitsAndSlashes(g0 + "/" + g1)
  {
    var t := g0 + "/" + g1;
    forall k | 0 <= k < |t|
      ensures IsDigit(t[k]) || t[k] == '/'
    {
      if k < |g0| {
        assert t[k] == g0[k];
      } else if k > |g0| {
        assert t[k] == g1[k - |g0| - 1];
      }
    }
  }

  /** Digit groups joined by `/` make a bare date token whose parts are
      the groups. */
  lemma BareTokenOfGroups(groups: seq<string>)
    requires |groups| == 2 || |groups| == 3
    requires IsNumeral(groups[0], 1, 2) && IsNumeral(groups[1], 1, 2)
    requires |groups| == 3 ==> IsNumeral(groups[2], 2, 4)
    ensures IsBareDateToken(JoinWith(groups, "/"))
    ensures Split(JoinWith(groups, "/"), {'/'}) == groups
  {
    DateTokenOfGroups(groups);
    SplitDigitJoin(groups);
    JoinEnds(groups);
    JoinDigitsAndSlashes(groups);
  }

  lemma {:induction false} JoinDigitsAndSlashes(groups: seq<string>)
    requires forall i :: 0 <= i < |groups| ==> AllDigits(groups[i])
    ensures DigitsAndSlashes(JoinWith(groups, "/"))
    decreases |groups|
  {
    if |groups| == 1 {
      assert JoinWith(groups, "/") == groups[0];
    } else if |groups| > 1 {
      JoinDigitsAndSlashes(groups[1..]);
      DigitsAndSlashesJoin(groups[0], JoinWith(groups[1..], "/"));
    }
  }

  /** `M/D` read off a string: two digit runs around a slash. */
  lemma TwoGroupToken(s: string, a: nat, m: nat, d: nat, e: nat)
    requires e == a + m + 1 + d && e <= |s|
    requires 1 <= m <= 2 && 1 <= d <= 2
    requires AllDigits(s[a..a + m]) && s[a + m] == '/' && AllDigits(s[a + m + 1..a + m + 1 + d])
    ensures IsBareDateToken(s[a..e])
  {
    var g0 := s[a..a + m];
    var g1 := s[a + m + 1..a + m + 1 + d];
    var tok := s[a..a + m + 1 + d];
    assert tok == g0 + "/" + g1;
    JoinTwo(g0, g1, "/");
    DateTokenOfGroups([g0, g1]);
    DigitsAndSlashesJoin(g0, g1);
    assert tok[0] == g0[0];
    assert tok[|tok| - 1] == g1[d - 1];
  }

  /** `M/D/Y` read off a string: three digit runs between slashes. */
  lemma ThreeGroupToken(s: string, a: nat, m: nat, d: nat, y: nat, e: nat)
    requires e == a + m + 1 + d + 1 + y && e <= |s|
    requires 1 <= m <= 2 && 1 <= d <= 2 && 2 <= y <= 4
    requires AllDigits(s[a..a + m]) && s[a + m] == '/' && AllDigits(s[a + m + 1..a + m + 1 + d])
    requires s[a + m + 1 + d] == '/' && AllDigits(s[a + m + 1 + d + 1..a + m + 1 + d + 1 + y])
    ensures IsBareDateToken(s[a..e])
  {
    var g0 := s[a..a + m];
    var g1 := s[a + m + 1..a + m + 1 + d];
    var g2 := s[a + m + 1 + d + 1..e];
    SliceOfThree(s, a, m, d, e);
    JoinThree(g0, g1, g2, "/");
    BareTokenOfGroups([g0, g1, g2]);
  }

  /** A slice with `/` at two places is its three pieces joined by `/`. */
  lemma SliceOfThree(s: string, a: nat, m: nat, d: nat, e: nat)
    requires a + m + 1 + d + 1 <= e <= |s|
    requires s[a + m] == '/' && s[a + m + 1 + d] == '/'
    ensures s[a..e] == s[a..a + m] + "/" + s[a + m + 1..a + m + 1 + d] + "/" + s[a + m + 1 + d + 1..e]
  {
  }


  /** What a date match covers is a bare date token. */
  lemma MatchDateToken(s: string, i: nat)
    requires i <= |s| && MatchDate(s, i).Some?
    ensures IsBareDateToken(s[i..MatchDate(s, i).value])
  {
    var e := MatchDate(s, i).value;
    var m := DigitRun(s, i);
    var d := DigitRun(s, i + m + 1);
    if e == i + m + 1 + d {
      TwoGroupToken(s, i, m, d, e);
    } else {
      ThreeGroupToken(s, i, m, d, e - (i + m + 1 + d + 1), e);
    }
  }

  /** What the date ending a range covers is a bare date token. */
  lemma MatchEndDateToken(s: string, q: nat)
    requires q <= |s| && MatchEndDate(s, q).Some?
    ensures IsBareDateToken(s[q..MatchEndDate(s, q).value])
  {
    var e := MatchEndDate(s, q).value;
    var m := DigitRun(s, q);
    var d := if DigitRun(s, q + m + 1) >= 2 then 2 else 1;
    if e == q + m + 1 + d {
      TwoGroupToken(s, q, m, d, e);
    } else {
      ThreeGroupToken(s, q, m, d, e - (q + m + 1 + d + 1), e);
    }
  }

  /** The pieces of a range tail: padding, one separator, padding, a
      bare date token. */
  lemma MatchRangeEndParts(s: string, p: nat) returns (ws1: string, sep: char, ws2: string, tok: string)
    requires p <= |s| && MatchRangeEnd(s, p).Some?
    ensures s[p..MatchRangeEnd(s, p).value] == ws1 + [sep] + ws2 + tok
    ensures AllIn(ws1, Whitespace) && AllIn(ws2, Whitespace) && sep in RangeSeps
    ensures IsBareDateToken(tok)
  {
    var e := MatchRangeEnd(s, p).value;
    var q := MatchSeparator(s, p).value;
    ws1, sep, ws2 := SeparatorParts(s, p);
    tok := s[q..e];
    MatchEndDateToken(s, q);
    assert s[p..e] == s[p..q] + tok;
  }

  /** What `\s*[-–]\s*` covers. */
  lemma SeparatorParts(s: string, p: nat) returns (ws1: string, sep: char, ws2: string)
    requires p <= |s| && MatchSeparator(s, p).Some?
    ensures s[p..MatchSeparator(s, p).value] == ws1 + [sep] + ws2
    ensures AllIn(ws1, Whitespace) && AllIn(ws2, Whitespace) && sep in RangeSeps
  {
    var a := p + SpaceRun(s, p);
    var q := MatchSeparator(s, p).value;
    ws1 := s[p..a];
    sep := s[a];
    ws2 := s[a + 1..q];
    assert s[p..q] == ws1 + [sep] + ws2;
  }

  /** A date token contains no range separator. */
  lemma NoRangeSep(tok: string)
    requires DigitsAndSlashes(tok)
    ensures NoneIn(tok, RangeSeps) && !HasRangeSep(tok)
  {
    assert forall k :: 0 <= k < |tok| ==> tok[k] != '-' && tok[k] != EnDash;
  }

  /** Whitespace contains no range separator. */
  lemma SpacesNoRangeSep(ws: string)
    requires AllIn(ws, Whitespace)
    ensures NoneIn(ws, RangeSeps)
  {
  }

  /** A range written as start token, padding, separator, padding, end
      token splits into the padded tokens, and stripping the padding gives
      the tokens back. */
  lemma RangeShape(tok1: string, ws1: string, sep: char, ws2: string, tok2: string)
    requires IsBareDateToken(tok1) && IsBareDateToken(tok2)
    requires AllIn(ws1, Whitespace) && AllIn(ws2, Whitespace) && sep in RangeSeps
    ensures var t := tok1 + ws1 + [sep] + ws2 + tok2;
      && HasRangeSep(t)
      && Split(t, RangeSeps) == [tok1 + ws1, ws2 + tok2]
      && Strip(tok1 + ws1, Whitespace) == tok1
      && Strip(ws2 + tok2, Whitespace) == tok2
  {
    RangeSplit(tok1, ws1, sep, ws2, tok2);
    PaddedTokenStrip(tok1, ws1, ws2, tok2);
  }

  lemma RangeSplit(tok1: string, ws1: string, sep: char, ws2: string, tok2: string)
    requires DigitsAndSlashes(tok1) && DigitsAndSlashes(tok2)
    requires AllIn(ws1, Whitespace) && AllIn(ws2, Whitespace) && sep in RangeSeps
    ensures var t := tok1 + ws1 + [sep] + ws2 + tok2;
      && HasRangeSep(t)
      && Split(t, RangeSeps) == [tok1 + ws1, ws2 + tok2]
  {
    var t := tok1 + ws1 + [sep] + ws2 + tok2;
    var head := tok1 + ws1;
    var tail := ws2 + tok2;
    NoRangeSep(tok1);
    NoRangeSep(tok2);
    SpacesNoRangeSep(ws1);
    SpacesNoRangeSep(ws2);
    NoneInConcat(tok1, ws1, RangeSeps);
    NoneInConcat(ws2, tok2, RangeSeps);
    assert t == head + [sep] + tail;
    assert t[|head|] == sep;
    SplitAfterPiece(head, sep, tail, RangeSeps);
    SplitNoSeparator(tail, RangeSeps);
  }

  lemma PaddedTokenStrip(tok1: string, ws1: string, ws2: string, tok2: string)
    requires |tok1| > 0 && IsDigit(tok1[0]) && IsDigit(tok1[|tok1| - 1])
    requires |tok2| > 0 && IsDigit(tok2[0]) && IsDigit(tok2[|tok2| - 1])
    requires AllIn(ws1, Whitespace) && AllIn(ws2, Whitespace)
    ensures Strip(tok1 + ws1, Whitespace) == tok1
    ensures Strip(ws2 + tok2, Whitespace) == tok2
  {
    TrailingSpaceStrip(tok1, ws1);
    LeadingSpaceStrip(ws2, tok2);
  }

  lemma TrailingSpaceStrip(tok: string, ws: string)
    requires |tok| > 0 && IsDigit(tok[0]) && IsDigit(tok[|tok| - 1])
    requires AllIn(ws, Whitespace)
    ensures Strip(tok + ws, Whitespace) == tok
  {
    DigitNotSpace(tok[0]);
    DigitNotSpace(tok[|tok| - 1]);
    StripPadded([], tok, ws, Whitespace);
    assert [] + tok + ws == tok + ws;
  }

  lemma LeadingSpaceStrip(ws: string, tok: string)
    requires |tok| > 0 && IsDigit(tok[0]) && IsDigit(tok[|tok| - 1])
    requires AllIn(ws, Whitespace)
    ensures Strip(ws + tok, Whitespace) == tok
  {
    DigitNotSpace(tok[0]);
    DigitNotSpace(tok[|tok| - 1]);
    StripPadded(ws, tok, [], Whitespace);
    assert ws + tok + [] == ws + tok;
  }

  /** Every match the pattern returns at a position has the shape of a
      match. */
  lemma MatchAtShape(s: string, i: nat)
    requires i <= |s| && MatchAt(s, i).Some?
    ensures IsMatchShape(s[i..MatchAt(s, i).value])
  {
    var e := MatchDate(s, i).value;
    if MatchRangeEnd(s, e).Some? {
      RangeMatchAtShape(s, i, e);
    } else {
      MatchDateToken(s, i);
      SingleMatchShape(s[i..e]);
    }
  }

  lemma RangeMatchAtShape(s: string, i: nat, e: nat)
    requires i <= |s| && MatchDate(s, i) == Some(e) && MatchRangeEnd(s, e).Some?
    ensures IsMatchShape(s[i..MatchRangeEnd(s, e).value])
  {
    var e2 := MatchRangeEnd(s, e).value;
    MatchDateToken(s, i);
    var ws1, sep, ws2, tok2 := MatchRangeEndParts(s, e);
    SliceSplit(s, i, e, e2);
    RangeMatchShape(s[i..e2], s[i..e], ws1, sep, ws2, tok2);
  }

  lemma SingleMatchShape(tok: string)
    requires IsBareDateToken(tok)
    ensures IsMatchShape(tok)
  {
    NoRangeSep(tok);
  }

  /** A date token, a separator with optional whitespace around it, and
      another date token make a range match. */
  lemma RangeMatchShape(t: string, tok1: string, ws1: string, sep: char, ws2: string, tok2: string)
    requires IsBareDateToken(tok1) && IsBareDateToken(tok2)
    requires AllIn(ws1, Whitespace) && AllIn(ws2, Whitespace) && sep in RangeSeps
    requires t == tok1 + (ws1 + [sep] + ws2 + tok2)
    ensures IsMatchShape(t)
  {
    assert t == tok1 + ws1 + [sep] + ws2 + tok2;
    RangeShape(tok1, ws1, sep, ws2, tok2);
    var ends := Split(t, RangeSeps);
    assert Strip(ends[0], Whitespace) == tok1;
    assert Strip(ends[1], Whitespace) == tok2;
  }

  /** Every string `findall` returns has the shape of a match. */
  lemma {:induction false} FindFromShapes(s: string, i: nat)
    requires i <= |s|
    ensures forall t :: t in FindFrom(s, i) ==> IsMatchShape(t)
    decreases |s| - i
  {
    if i < |s| {
      match MatchAt(s, i)
      case Some(e) =>
        MatchAtShape(s, i);
        FindFromShapes(s, e);
      case None =>
        FindFromShapes(s, i + 1);
    }
  }

  // ---------------------------------------------------------------------
  // What the pattern finds

  /** `s` holds no digit. */
  predicate NoDigits(s: string)
  {
    forall k :: 0 <= k < |s| ==> !IsDigit(s[k])
  }

  /** The digit run at `i` is the `n` digits found there. */
  lemma DigitRunOf(s: string, i: nat, n: nat)
    requires i + n <= |s|
    requires forall k :: i <= k < i + n ==> IsDigit(s[k])
    requires i + n == |s| || !IsDigit(s[i + n])
    ensures DigitRun(s, i) == n
  {
  }

  /** No match starts at a character that is not a digit. */
  lemma NoMatchAtNonDigit(s: string, i: nat)
    requires i < |s| && !IsDigit(s[i])
    ensures MatchAt(s, i) == None
  {
    DigitRunOf(s, i, 0);
  }

  /** One step of the scan where no match starts. */
  lemma FindFromNoMatch(s: string, i: nat)
    requires i < |s| && MatchAt(s, i) == None
    ensures FindFrom(s, i) == FindFrom(s, i + 1)
  {
  }

  /** One step of the scan where a match starts: it is returned, and the
      scan resumes at its end. */
  lemma FindFromMatch(s: string, i: nat, e: nat)
    requires i < |s| && MatchAt(s, i) == Some(e)
    ensures FindFrom(s, i) == [s[i..e]] + FindFrom(s, e)
  {
  }

  /** The scan passes over a character that is not a digit. */
  lemma FindFromSkipsOne(s: string, i: nat)
    requires i < |s| && !IsDigit(s[i])
    ensures FindFrom(s, i) == FindFrom(s, i + 1)
  {
    NoMatchAtNonDigit(s, i);
    FindFromNoMatch(s, i);
  }

  /** The scan passes over text without digits and finds nothing in it. */
  lemma {:induction false} FindFromSkips(s: string, i: nat, j: nat)
    requires i <= j <= |s|
    requires forall k :: i <= k < j ==> !IsDigit(s[k])
    ensures FindFrom(s, i) == FindFrom(s, j)
    decreases j - i
  {
    if i < j {
      FindFromSkipsOne(s, i);
      FindFromSkips(s, i + 1, j);
    }
  }

  /** No range end starts where no digit follows. */
  lemma NoRangeEnd(s: string, p: nat)
    requires p <= |s|
    requires forall k :: p <= k < |s| ==> !IsDigit(s[k])
    ensures MatchRangeEnd(s, p) == None
  {
    match MatchSeparator(s, p)
    case None =>
    case Some(q) =>
      DigitRunOf(s, q, 0);
  }

  /** A date token is its digit groups joined by `/`. */
  lemma TokenGroups(tok: string) returns (ps: seq<string>)
    requires IsDateToken(tok)
    ensures |ps| == 2 || |ps| == 3
    ensures IsNumeral(ps[0], 1, 2) && IsNumeral(ps[1], 1, 2)
    ensures |ps| == 2 ==> tok == ps[0] + "/" + ps[1]
    ensures |ps| == 3 ==> IsNumeral(ps[2], 2, 4) && tok == ps[0] + "/" + ps[1] + "/" + ps[2]
  {
    ps := Split(tok, {'/'});
    JoinSplit(tok, '/');
    assert JoinWith(ps, "/") == tok;
    if |ps| == 2 {
      JoinTwo(ps[0], ps[1], "/");
    } else {
      assert ps == [ps[0], ps[1], ps[2]];
      JoinThree(ps[0], ps[1], ps[2], "/");
    }
  }

  /** A bare date token written at `a`, at word boundaries and with no
      digit after it, is matched whole by the first half of the pattern. */
  lemma MatchDateWhole(s: string, a: nat, tok: string)
    requires IsDateToken(tok) && a + |tok| <= |s| && s[a..a + |tok|] == tok
    requires BoundaryBefore(s, a) && BoundaryAfter(s, a + |tok|)
    requires forall k :: a + |tok| <= k < |s| ==> !IsDigit(s[k])
    ensures MatchDate(s, a) == Some(a + |tok|)
  {
    var ps := TokenGroups(tok);
    if |ps| == 2 {
      MatchDateTwo(s, a, ps[0], ps[1]);
    } else {
      MatchDateThree(s, a, ps[0], ps[1], ps[2]);
    }
  }

  /** `M/D/Y` written at `a`: the month, day and year runs are the groups. */
  lemma MatchDateThree(s: string, a: nat, g0: string, g1: string, g2: string)
    requires IsNumeral(g0, 1, 2) && IsNumeral(g1, 1, 2) && IsNumeral(g2, 2, 4)
    requires a + |g0| + 1 + |g1| + 1 + |g2| <= |s|
    requires s[a..a + |g0| + 1 + |g1| + 1 + |g2|] == g0 + "/" + g1 + "/" + g2
    requires BoundaryBefore(s, a) && BoundaryAfter(s, a + |g0| + 1 + |g1| + 1 + |g2|)
    ensures MatchDate(s, a) == Some(a + |g0| + 1 + |g1| + 1 + |g2|)
  {
    ThreeGroupRuns(s, a, g0, g1, g2);
    MatchDateOfRuns(s, a, |g0|, |g1|, |g2|);
  }

  /** A digit group written at `i` and not followed by a digit is the
      digit run there. */
  lemma DigitRunOfGroup(s: string, i: nat, g: string)
    requires AllDigits(g) && i + |g| <= |s| && s[i..i + |g|] == g
    requires i + |g| == |s| || !IsDigit(s[i + |g|])
    ensures DigitRun(s, i) == |g|
  {
    forall k | i <= k < i + |g|
      ensures IsDigit(s[k])
    {
      assert s[k] == g[k - i];
    }
    DigitRunOf(s, i, |g|);
  }

  /** `M/D` written at `a`: the month and day runs are the groups. */
  lemma MatchDateTwo(s: string, a: nat, g0: string, g1: string)
    requires IsNumeral(g0, 1, 2) && IsNumeral(g1, 1, 2)
    requires a + |g0| + 1 + |g1| <= |s| && s[a..a + |g0| + 1 + |g1|] == g0 + "/" + g1
    requires BoundaryBefore(s, a) && BoundaryAfter(s, a + |g0| + 1 + |g1|)
    requires forall k :: a + |g0| + 1 + |g1| <= k < |s| ==> !IsDigit(s[k])
    ensures MatchDate(s, a) == Some(a + |g0| + 1 + |g1|)
  {
    var e := a + |g0| + 1 + |g1|;
    RunsOfTwoGroups(s, a, g0, g1);
    if e < |s| && s[e] == '/' {
      DigitRunOf(s, e + 1, 0);
    }
  }

  /** Two digit groups around a `/` at `a`, and no digit after them: the
      digit runs there are the groups. */
  lemma RunsOfTwoGroups(s: string, a: nat, g0: string, g1: string)
    requires AllDigits(g0) && AllDigits(g1)
    requires a + |g0| + 1 + |g1| <= |s| && s[a..a + |g0| + 1 + |g1|] == g0 + "/" + g1
    requires a + |g0| + 1 + |g1| == |s| || !IsDigit(s[a + |g0| + 1 + |g1|])
    ensures DigitRun(s, a) == |g0| && s[a + |g0|] == '/' && DigitRun(s, a + |g0| + 1) == |g1|
  {
    var m := |g0|;
    var e := a + m + 1 + |g1|;
    var t := s[a..e];
    assert s[a..a + m] == t[..m] == g0;
    assert s[a + m] == t[m] == '/';
    assert s[a + m + 1..e] == t[m + 1..] == g1;
    DigitRunOfGroup(s, a, g0);
    DigitRunOfGroup(s, a + m + 1, g1);
  }

  /** The digit runs of `M/D/Y` read at `a`: `m` digits, `/`, `d` digits,
      `/`, `y` digits. */
  predicate ThreeRunsAt(s: string, a: nat, m: nat, d: nat, y: nat)
  {
    && a + m + 1 + d + 1 + y <= |s|
    && DigitRun(s, a) == m && s[a + m] == '/' && DigitRun(s, a + m + 1) == d
    && s[a + m + 1 + d] == '/' && DigitRun(s, a + m + 1 + d + 1) == y
  }

  /** The digit runs of `M/D/Y` written at `a` are its groups. */
  lemma ThreeGroupRuns(s: string, a: nat, g0: string, g1: string, g2: string)
    requires AllDigits(g0) && AllDigits(g1) && AllDigits(g2)
    requires a + |g0| + 1 + |g1| + 1 + |g2| <= |s|
    requires s[a..a + |g0| + 1 + |g1| + 1 + |g2|] == g0 + "/" + g1 + "/" + g2
    requires BoundaryAfter(s, a + |g0| + 1 + |g1| + 1 + |g2|)
    ensures ThreeRunsAt(s, a, |g0|, |g1|, |g2|)
  {
    var k := a + |g0| + 1 + |g1|;
    var e := k + 1 + |g2|;
    ThreeGroupsAt(s, a, k, e, g0, g1, g2);
    RunsOfTwoGroups(s, a, g0, g1);
    YearRun(s, k, e, g2);
  }

  /** The year group of `M/D/Y`, ending at a word boundary, is the digit
      run after the second `/`. */
  lemma YearRun(s: string, k: nat, e: nat, g2: string)
    requires AllDigits(g2) && e == k + 1 + |g2| && e <= |s| && s[k + 1..e] == g2
    requires BoundaryAfter(s, e)
    ensures DigitRun(s, k + 1) == |g2|
  {
    DigitRunOfGroup(s, k + 1, g2);
  }

  /** The text of `M/D/Y` at `a` is that of `M/D`, a `/`, and the year. */
  lemma ThreeGroupsAt(s: string, a: nat, k: nat, e: nat, g0: string, g1: string, g2: string)
    requires k == a + |g0| + 1 + |g1| && e == k + 1 + |g2| && e <= |s|
    requires s[a..e] == g0 + "/" + g1 + "/" + g2
    ensures s[a..k] == g0 + "/" + g1 && s[k] == '/' && s[k + 1..e] == g2
  {
    var t, p, q := s[a..e], g0 + "/" + g1, "/" + g2;
    assert t == p + q;
    assert t[..|p|] == p && t[|p|..] == q;
    assert s[a..k] == t[..|p|];
    assert s[k] == q[0] == '/';
    assert s[k + 1..e] == q[1..] == g2;
  }

  /** The first half of the pattern read off the digit runs at `a`: month,
      `/`, day, `/`, and a year ending at a word boundary. */
  lemma MatchDateOfRuns(s: string, a: nat, m: nat, d: nat, y: nat)
    requires ThreeRunsAt(s, a, m, d, y) && BoundaryBefore(s, a)
    requires 1 <= m <= 2 && 1 <= d <= 2 && 2 <= y <= 4
    requires BoundaryAfter(s, a + m + 1 + d + 1 + y)
    ensures MatchDate(s, a) == Some(a + m + 1 + d + 1 + y)
  {
  }

  /** Completeness for one date: a line whose only digits are those of one
      bare date token, standing between word boundaries, yields exactly
      that token. */
  lemma FindAllSoleToken(pre: string, tok: string, post: string)
    requires IsBareDateToken(tok) && NoDigits(pre) && NoDigits(post)
    requires pre == [] || !IsWordChar(pre[|pre| - 1])
    requires post == [] || !IsWordChar(post[0])
    ensures FindAll(pre + tok + post) == [tok]
  {
    var s := pre + tok + post;
    var a, e := |pre|, |pre| + |tok|;
    SoleTokenLayout(pre, tok, post);
    FindFromSkips(s, 0, a);
    MatchDateWhole(s, a, tok);
    NoRangeEnd(s, e);
    assert MatchAt(s, a) == Some(e);
    FindFromMatch(s, a, e);
    FindFromSkips(s, e, |s|);
    assert FindFrom(s, |s|) == [];
  }

  /** Where the parts of `pre + tok + post` sit. */
  lemma SoleTokenLayout(pre: string, tok: string, post: string)
    requires NoDigits(pre) && NoDigits(post)
    requires pre == [] || !IsWordChar(pre[|pre| - 1])
    requires post == [] || !IsWordChar(post[0])
    ensures var s, a, e := pre + tok + post, |pre|, |pre| + |tok|;
      && s[a..e] == tok
      && (forall k :: 0 <= k < a ==> !IsDigit(s[k]))
      && (forall k :: e <= k < |s| ==> !IsDigit(s[k]))
      && BoundaryBefore(s, a) && BoundaryAfter(s, e)
  {
    var s, a, e := pre + tok + post, |pre|, |pre| + |tok|;
    assert s[a..e] == tok;
    assert forall k :: 0 <= k < a ==> s[k] == pre[k];
    assert forall k :: e <= k < |s| ==> s[k] == post[k - e];
  }

  /** A range is returned as one match, separator and both dates
      together, not as two dates. */
  lemma FindAllSoleRange()
    ensures FindAll("11/26-11/27") == ["11/26-11/27"]
  {
    var s := "11/26-11/27";
    SoleRangeMatch();
    FindFromMatch(s, 0, |s|);
    assert s[0..|s|] == s;
  }

  /** The whole of `11/26-11/27` is one match. */
  lemma SoleRangeMatch()
    ensures MatchAt("11/26-11/27", 0) == Some(11)
  {
    SoleRangeStart();
    SoleRangeEnd();
  }

  /** The first date of `11/26-11/27` ends at the hyphen. */
  lemma SoleRangeStart()
    ensures MatchDate("11/26-11/27", 0) == Some(5)
  {
    var s := "11/26-11/27";
    DigitRunOf(s, 0, 2);
    DigitRunOf(s, 3, 2);
  }

  /** The second half takes the hyphen and the second date. */
  lemma SoleRangeEnd()
    ensures MatchRangeEnd("11/26-11/27", 5) == Some(11)
  {
    var s := "11/26-11/27";
    assert s[5] == '-' && '-' !in Whitespace;
    DigitNotSpace(s[6]);
    assert MatchSeparator(s, 5) == Some(6);
    DigitRunOf(s, 6, 2);
    DigitRunOf(s, 9, 2);
  }

  /** The pattern finds every bare date token standing alone. */
  lemma FindAllOfToken(tok: string)
    requires IsBareDateToken(tok)
    ensures FindAll(tok) == [tok]
  {
    FindAllSoleToken("", tok, "");
    assert "" + tok + "" == tok;
  }

  /** A date token of the pattern is parsed by `parse_date_string`
      without format or integer errors: only `datetime()` can refuse it.
      Two parts take the default year; a third part is a year, below 100
      meaning 20YY. */
  lemma DateTokenParse(t: string)
    requires IsDateToken(t)
    ensures var ps := Split(t, {'/'});
      ParseDateString(t) == Lift(MakeDate(
        if |ps| == 2 then DefaultYear else ExpandYear(DigitsValue(ps[2])),
        DigitsValue(ps[0]), DigitsValue(ps[1])))
  {
    var ps := Split(t, {'/'});
    JoinSplit(t, '/');
    assert JoinWith(ps, "/") == t;
    ParseOfTokenParts(ps);
  }

  lemma ParseOfTokenParts(ps: seq<string>)
    requires |ps| == 2 || |ps| == 3
    requires IsNumeral(ps[0], 1, 2) && IsNumeral(ps[1], 1, 2)
    requires |ps| == 3 ==> IsNumeral(ps[2], 2, 4)
    ensures ParseDateString(JoinWith(ps, "/")) == Lift(MakeDate(
      if |ps| == 2 then DefaultYear else ExpandYear(DigitsValue(ps[2])),
      DigitsValue(ps[0]), DigitsValue(ps[1])))
  {
    forall i | 0 <= i < |ps|
      ensures |ps[i]| > 0 && AllDigits(ps[i])
    {
      assert IsNumeral(ps[i], 1, 4);
    }
    ParseOfGroups(ps);
  }
}
