/** The description of an event: the line with the matched date token cut
    out, at most one leading weekday name dropped, words rejoined by single
    spaces, and spaces, tabs, hyphens and en dashes trimmed from both ends. */
module Description {
  import opened Text
  import opened DatePattern

  /** The weekday names, compared after lower-casing. */
  const Weekdays: set<string> := {"monday", "tuesday", "wednesday", "thursday", "friday", "saturday", "sunday"}

  /** The characters of `strip(' -–\t')`. */
  const EdgeChars: set<char> := {' ', '-', EnDash, '\t'}

  /** Text that the final `strip` leaves alone: non-empty, and neither end
      is one of the trimmed characters. */
  predicate Untrimmed(s: string)
  {
    |s| > 0 && s[0] !in EdgeChars && s[|s| - 1] !in EdgeChars
  }

  predicate IsWeekday(w: string)
  {
    Lower(w) in Weekdays
  }

  /** `description.split()` after the token is removed and the line stripped. */
  function RawWords(line: string, token: string): (ws: seq<string>)
    ensures forall i :: 0 <= i < |ws| ==> IsWord(ws[i])
  {
    Words(Strip(RemoveAll(line, token), Whitespace))
  }

  /** Drop the first word when it names a weekday: the result is the word
      list with at most its first word removed, and a word is removed
      exactly when the list starts with a weekday. */
  function DropWeekday(ws: seq<string>): (r: seq<string>)
    ensures |ws| - 1 <= |r| <= |ws| && r == ws[|ws| - |r|..]
    ensures |r| < |ws| <==> |ws| > 0 && IsWeekday(ws[0])
  {
    if |ws| > 0 && IsWeekday(ws[0]) then ws[1..] else ws
  }

  /** The cleaned description of `line` for the matched `token`: the only
      whitespace left is single spaces between words, and it neither starts
      nor ends with a space, tab, hyphen or en dash. */
  function Clean(line: string, token: string): (r: string)
    ensures SingleSpaced(r)
    ensures r == [] || (r[0] !in EdgeChars && r[|r| - 1] !in EdgeChars)
    ensures r == [] || (r[0] !in Whitespace && r[|r| - 1] !in Whitespace)
  {
    var kept := DropWeekday(RawWords(line, token));
    var joined := JoinWith(kept, " ");
    JoinWordsSingleSpaced(kept);
    var r := Strip(joined, EdgeChars);
    SingleSpacedSlice(joined, LeadingCount(joined, EdgeChars), LeadingCount(joined, EdgeChars) + |r|);
    r
  }

  /** The weekday test ignores case: a word is a weekday exactly when it
      spells one of the seven names with any of its letters written as
      capitals. */
  lemma WeekdayCaseVariant(w: string)
    ensures IsWeekday(w) <==> exists n :: n in Weekdays && CaseVariant(w, n)
  {
    LowerIsCaseVariant(w, Lower(w));
    forall n | n in Weekdays && CaseVariant(w, n)
      ensures IsWeekday(w)
    {
      LowerIsCaseVariant(w, n);
    }
  }

  /** Full weekday names count in any case; abbreviations and plurals do not. */
  lemma WeekdayExamples()
    ensures IsWeekday("Monday") && IsWeekday("MONDAY") && IsWeekday("friday")
    ensures !IsWeekday("Mon") && !IsWeekday("Mondays")
  {
    assert Lower("Monday") == "monday";
    assert Lower("MONDAY") == "monday";
    assert Lower("friday") == "friday";
    assert Lower("Mon") == "mon";
    assert Lower("Mondays") == "mondays";
  }

  /** A weekday name begins and ends with a letter. */
  lemma WeekdayEnds(w: string)
    requires IsWeekday(w)
    ensures |w| > 0 && w[0] !in EdgeChars && w[|w| - 1] !in EdgeChars
  {
    var l := Lower(w);
    assert l[0] == LowerChar(w[0]) && l[|l| - 1] == LowerChar(w[|w| - 1]);
  }

  /** Only one weekday is dropped: when the first two words both name
      weekdays, the description begins with the second. */
  lemma CleanDropsOneWeekday(line: string, token: string)
    requires var ws := RawWords(line, token); |ws| >= 2 && IsWeekday(ws[0]) && IsWeekday(ws[1])
    ensures var ws := RawWords(line, token);
      |ws[1]| <= |Clean(line, token)| && Clean(line, token)[..|ws[1]|] == ws[1]
  {
    var ws := RawWords(line, token);
    assert Clean(line, token) == Strip(JoinWith(DropWeekday(ws), " "), EdgeChars);
    DropsOneWeekday(ws);
  }

  /** The word-list half of `CleanDropsOneWeekday`. */
  lemma DropsOneWeekday(ws: seq<string>)
    requires |ws| >= 2 && IsWeekday(ws[0]) && IsWeekday(ws[1])
    ensures var r := Strip(JoinWith(DropWeekday(ws), " "), EdgeChars);
      |ws[1]| <= |r| && r[..|ws[1]|] == ws[1]
  {
    var kept := ws[1..];
    assert DropWeekday(ws) == kept;
    WeekdayEnds(ws[1]);
    var rest := if |kept| == 1 then "" else " " + JoinWith(kept[1..], " ");
    assert JoinWith(kept, " ") == ws[1] + rest;
    StripKeepsHead(ws[1], rest, EdgeChars);
  }

  /** When the first word is not a weekday and the words begin and end
      away from the trimmed characters, the description is the words of the
      line joined by single spaces, and splitting it gives them back. */
  lemma CleanKeepsWords(line: string, token: string)
    requires var ws := RawWords(line, token);
      && |ws| > 0
      && !IsWeekday(ws[0])
      && ws[0][0] !in EdgeChars
      && ws[|ws| - 1][|ws[|ws| - 1]| - 1] !in EdgeChars
    ensures Clean(line, token) == JoinWith(RawWords(line, token), " ")
    ensures Words(Clean(line, token)) == RawWords(line, token)
  {
    var ws := RawWords(line, token);
    JoinWithEnds(ws, " ");
    StripUnpadded(JoinWith(ws, " "), EdgeChars);
    WordsOfJoin(ws);
  }

  /** Cutting out the only date of a line whose other text holds no digit
      leaves exactly that other text. */
  lemma RemoveSoleToken(pre: string, tok: string, post: string)
    requires NoDigits(pre) && NoDigits(post) && |tok| > 0 && IsDigit(tok[0])
    ensures RemoveAll(pre + tok + post, tok) == pre + post
  {
    var s := pre + tok + post;
    forall i | 0 <= i < |pre|
      ensures !OccursAt(s, tok, i)
    {
      assert s[i] == pre[i];
      NoDigitStart(s, tok, i);
    }
    RemoveAllFirst(pre, tok, post);
    forall i | 0 <= i
      ensures !OccursAt(post, tok, i)
    {
      if i < |post| {
        NoDigitStart(post, tok, i);
      }
    }
    ContainsIffOccurs(post, tok);
  }

  /** An occurrence of a digit-led string starts at a digit. */
  lemma NoDigitStart(s: string, tok: string, i: nat)
    requires |tok| > 0 && IsDigit(tok[0]) && i < |s| && !IsDigit(s[i])
    ensures !OccursAt(s, tok, i)
  {
    if i + |tok| <= |s| {
      assert s[i..i + |tok|][0] == s[i];
    }
  }

  /** A line made of a weekday, a date and then words, where the date is
      the only place a digit occurs. */
  predicate WeekdayDateLine(day: string, tok: string, rest: seq<string>)
  {
    && IsWeekday(day) && IsWord(day) && NoDigits(day)
    && |tok| > 0 && IsDigit(tok[0])
    && |rest| > 0 && (forall i :: 0 <= i < |rest| ==> IsWord(rest[i]))
    && NoDigits(JoinWith(rest, " ")) && Untrimmed(JoinWith(rest, " "))
  }

  /** Such a line's description is exactly the words after the date,
      single-spaced: the date is cut out and the weekday dropped. */
  lemma CleanWeekdayDateLine(day: string, tok: string, rest: seq<string>)
    requires WeekdayDateLine(day, tok, rest)
    ensures Clean(day + " " + tok + " " + JoinWith(rest, " "), tok) == JoinWith(rest, " ")
  {
    WeekdayLineWords(day, tok, rest);
    assert ([day] + rest)[1..] == rest;
    CleanOfKept(day + " " + tok + " " + JoinWith(rest, " "), tok, rest);
  }

  /** When the kept words, joined, need no trimming, they are the
      description. */
  lemma CleanOfKept(line: string, token: string, kept: seq<string>)
    requires DropWeekday(RawWords(line, token)) == kept && Untrimmed(JoinWith(kept, " "))
    ensures Clean(line, token) == JoinWith(kept, " ")
  {
    StripUnpadded(JoinWith(kept, " "), EdgeChars);
  }

  /** The words of such a line once the date is cut out: the weekday, then
      the words after the date. */
  lemma WeekdayLineWords(day: string, tok: string, rest: seq<string>)
    requires WeekdayDateLine(day, tok, rest)
    ensures RawWords(day + " " + tok + " " + JoinWith(rest, " "), tok) == [day] + rest
  {
    WeekdayLineCut(day, tok, rest);
    WordsOfDoubleSpace(day, rest);
  }

  /** Cutting the date out of such a line leaves the weekday and the words
      with a doubled space between them, and no space at either end. */
  lemma WeekdayLineCut(day: string, tok: string, rest: seq<string>)
    requires WeekdayDateLine(day, tok, rest)
    ensures var cut := day + "  " + JoinWith(rest, " ");
      && RemoveAll(day + " " + tok + " " + JoinWith(rest, " "), tok) == cut
      && Strip(cut, Whitespace) == cut
  {
    var j := JoinWith(rest, " ");
    SpacedPieces(day, tok, j);
    RemoveSoleToken(day + " ", tok, " " + j);
    GapEnds(day, rest);
  }

  /** The doubled-gap text starts with the weekday's first letter and ends
      with the last word's last character. */
  lemma GapEnds(day: string, rest: seq<string>)
    requires IsWord(day) && |rest| > 0 && forall i :: 0 <= i < |rest| ==> IsWord(rest[i])
    ensures Strip(day + "  " + JoinWith(rest, " "), Whitespace) == day + "  " + JoinWith(rest, " ")
  {
    var j := JoinWith(rest, " ");
    forall i | 0 <= i < |rest|
      ensures |rest[i]| > 0
    {
      assert IsWord(rest[i]);
    }
    JoinWithEnds(rest, " ");
    assert IsWord(rest[|rest| - 1]);
    ConcatEnds(day, "  ", j);
    StripUnpadded(day + "  " + j, Whitespace);
  }

  lemma ConcatEnds(a: string, b: string, c: string)
    requires |a| > 0 && |c| > 0
    ensures var s := a + b + c; s[0] == a[0] && s[|s| - 1] == c[|c| - 1]
  {
  }

  /** How the pieces of such a line regroup around the date. */
  lemma SpacedPieces(day: string, tok: string, j: string)
    requires NoDigits(day) && NoDigits(j)
    ensures day + " " + tok + " " + j == (day + " ") + tok + (" " + j)
    ensures (day + " ") + (" " + j) == day + "  " + j
    ensures NoDigits(day + " ") && NoDigits(" " + j)
  {
    assert " " + " " == "  ";
  }
}
