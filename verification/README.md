# Academic-calendar event extraction, modelled in Dafny

This project models the text-to-events core of the PDF-to-iCalendar converter (`app.py`) and proves properties of it. It covers the following:

- **Parsing dates** (`parse_date_string`): a `M/D` or `M/D/Y` token becomes a calendar date.
  - A two-part token takes the default year 2025.
  - A year from 0 to 99 means 20YY. A negative year, which `int()` accepts, is also raised by 2000. A year from 100 on is unchanged.
  - Any other part count is an `Invalid date format` error.
  - A part `int()` rejects is an error.
  - A date `datetime()` rejects is an error.
- **The keyword line filter**: a line is kept only if its lower-case form contains one of the twelve `KEYWORDS` phrases.
- **The date pattern**: the matches `re.findall(date_pattern, line)` returns.
  - The hand-written scanner in `DatePattern` reproduces the backtracking engine's leftmost, non-overlapping result for this one pattern.
  - It includes the `\b` word boundaries.
- **Description cleanup**, in this order:
  - the token is removed from the line;
  - the line is stripped and split into words;
  - at most one leading weekday name is dropped;
  - the words are rejoined with single spaces;
  - `' -–\t'` is trimmed from both ends.
- **Per-match dispatch**:
  - A match holding `-` or `–` is a range. Each of its two ends is parsed on its own.
  - Any other match is a single date.
  - A match that fails to parse is skipped, and processing continues.
  - Records are produced in page, line and match order.
  - A calendar entry is named by the description, or "Academic Event" when the description is empty.

Modules follow the program's structure:

| module | file | what it models |
|---|---|---|
| `Outcomes` | `outcomes.dfy` | the `Option` and `Result` types |
| `Seqs` | `seqs.dfy` | appending loops and `map` over a sequence |
| `Text` | `text.dfy` | the Python string operations used |
| `Numerals` | `numerals.dfy` | `int()` on text; decimal digits |
| `Dates` | `dates.dfy` | the `datetime(year, month, day)` validity rules |
| `DateParse` | `date_parse.dfy` | `parse_date_string` |
| `DatePattern` | `date_pattern.dfy` | `date_pattern` and `re.findall` |
| `Description` | `description.dfy` | description cleanup |
| `Extract` | `extract.dfy` | `extract_events`, as functions and as the nested loops |

`Text` covers `strip`, `split`, `sep.join`, `replace(t, "")`, `lower`, `in` and `str.split()`.

**What `app.py` does not do.** The following are plain facts about the code, and the model follows them:

- There is no year inferred from a document header. Every two-part token is in 2025.
- A range end does not inherit month or year from the range start. `Extract.RangeEndYearNotInherited` shows `1/5/2026 - 1/10` being appended to `events_list` (app.py:87) with the ends 2026-01-05 and 2025-01-10.
- A range that ends before it starts is not rejected by the parsing step. `Extract.InvertedRangeKept` shows `5/10-5/5` being appended to `events_list` (app.py:87) with the ends 2025-05-10 and 2025-05-05.
- A range written `9/2-5` is not a range: the pattern needs a full `M/D` after the separator.
- There is no phrase-to-label canonicalisation.
- Only one leading weekday is dropped, not a run of them: see `Description.CleanDropsOneWeekday`.
  - A separator between two weekdays survives until the final edge trim.
  - So `Wednesday - Thursday 11/26-11/27 College Closed` is described as `Thursday College Closed`.

## Model

| member | source | states |
|---|---|---|
| Dates.MakeDate | app.py:45 | `datetime(y, m, d)` succeeds exactly for a real date in years 1..9999 and returns that date. It reports the year first, then the month, rather than normalising. |
| Dates.YearLength | app.py:45 | The month lengths add up to 365 or 366 days. February 29 exists exactly in leap years. |
| Numerals.PyIntOfDigits | app.py:37 | `int()` of a non-empty digit string is its decimal value. |
| Numerals.PyInt | app.py:37 | `int()` of digits between skipped whitespace is their decimal value. Text that is only such whitespace is rejected. A negative value needs a leading `-`. |
| Numerals.PyIntPadded | app.py:37 | `int()` ignores the whitespace it skips (tab, line feed, vertical tab, form feed, carriage return, space and the non-ASCII spaces) around the digits. |
| Numerals.PyIntOfNegative | app.py:37 | `int()` of a minus followed by digits is the negative of their value. |
| Numerals.PyIntRejectsSeparator | app.py:37 | `int()` rejects digits followed by the file separator `\x1c`, which `str.isspace()` accepts but `int()` does not skip. |
| Numerals.IntOfNatToString | app.py:37 | `int()` of the decimal rendering of a natural number gives the number back. |
| Seqs.MapAll | app.py:37 | `map(int, parts)` unpacked: on success one value per element, each the value the step gives that element. On failure, the first element the step rejects, every earlier one accepted. |
| DateParse.ToInts | app.py:37 | `map(int, parts)` yields one integer per part, each the one `int()` gives. It reports the first part `int()` rejects. |
| DateParse.ParseDateString | app.py:34-45 | A successful parse is a real date. A part count other than 2 or 3 is `InvalidFormat` of the token itself. A two-part token that parses is in year 2025. |
| DateParse.ParseOfGroups | app.py:34-45 | Digit groups joined by `/` reach `datetime()` as their decimal values. A third group is expanded as a year. |
| DateParse.ParseMonthDay | app.py:36-38 | `M/D` parses to (2025, M, D) exactly when that date exists. Otherwise it is an out-of-range error, never another date. |
| DateParse.ParseMonthDayYear | app.py:39-42 | `M/D/Y` gives year 2000 + Y when Y < 100, and Y otherwise. It fails exactly when that date does not exist. |
| DateParse.ParseTwoGroups | app.py:35-38 | Two digit groups around one slash reach `datetime()` as (2025, first value, second value). |
| DateParse.ParseThreeGroups | app.py:35-42 | Three digit groups reach `datetime()` as month, day and year, the year raised by 2000 when below 100. |
| DateParse.ParsePartCount | app.py:43-44 | One part, or four or more, is an invalid-format error naming the token. |
| DateParse.ParseBadMonth | app.py:45 | A month outside 1..12 is a month error, whatever the day. |
| DateParse.ParseBadDay | app.py:45 | A day past the month's end is a day error, not a wrap into the next month. |
| DateParse.ParseLeapDayDefaultYear | app.py:38 | `2/29` fails as a day error, because 2025 is not a leap year. |
| DateParse.ParseLeapDayLeapYear | app.py:41-42 | `2/29/24` is 2024-02-29. |
| DateParse.ExpandYear | app.py:41-42 | A year from 0 to 99 is moved into 2000..2099, keeping its last two digits. A negative year, which `int()` accepts, is also raised by 2000. A year of 100 or more is unchanged. |
| DateParse.ParseNegativeYear | app.py:37-42 | `M/D/-Y` is accepted by `int()`, and the year 2000 - Y reaches `datetime()`. |
| DateParse.SlashPartsOfDigits | app.py:35 | Stripping and splitting digit groups joined by `/` gives the groups back, and `int()` reads each as its decimal value. |
| DateParse.ParseRejectsSeparator | app.py:35-37 | `M\x1c/D` is an integer error for the first part: `strip()` keeps the inner `\x1c` and `int()` refuses it. |
| DateParse.ParseFormatRoundTrip | app.py:34-45 | Rendering a real date (year ≥ 100) as `M/D/YYYY` and parsing it gives the date back. |
| Text.Strip | app.py:35 | `strip()` removes exactly the leading and trailing characters of the set. What remains is a slice whose ends are outside the set. It is empty exactly when every character is in the set. |
| Text.JoinSplit | app.py:35 | Splitting on a character and rejoining with it gives the string back. |
| Text.SplitJoin | app.py:77 | Splitting a join of separator-free pieces gives the pieces back. |
| Text.WordsOfJoin | app.py:69 | `split()` of words joined by single spaces gives the words back. |
| Text.ContainsIffOccurs | app.py:60 | Substring containment holds exactly when the substring occurs at some index. |
| Text.RemoveAll | app.py:68 | `replace(t, "")` only removes characters, and leaves a line without `t` unchanged. |
| Text.RemoveAllFirst | app.py:68 | When `t` first occurs at the end of `a` in `a + t + b`, `replace(t, "")` keeps `a` and continues after that occurrence. |
| Text.Lower | app.py:59 | `lower()` keeps the length, turns each capital into its small letter and changes nothing else. |
| Text.LowerIsCaseVariant | app.py:59 | Lower-casing a word gives `n` exactly when the word spells `n` with some of its small letters written as capitals. |
| Text.LowerIdempotent | app.py:59 | Lower-casing twice is lower-casing once. |
| Text.LowerAppend | app.py:59 | Lower-casing a concatenation lower-cases each part. |
| Text.Split | app.py:35 | `split(sep)` gives at least one piece, and no piece holds a separator. |
| Text.Words | app.py:69 | Every piece of `str.split()` is a non-empty run of non-whitespace characters. |
| Text.WordsOfDoubleSpace | app.py:69 | `str.split()` treats a doubled space like a single one: a word, two spaces and single-spaced words split into those words. |
| Text.JoinWordsSingleSpaced | app.py:74 | `' '.join(words)` has single spaces between words and, when there is a word, no whitespace at either end. |
| DatePattern.MatchDateToken | app.py:29 | What the first half of the pattern matches is an `M/D` or `M/D/Y` token of digits and slashes. Month and day have 1-2 digits and the year 2-4. |
| DatePattern.MatchRangeEndParts | app.py:29 | The optional second half is whitespace, one `-` or `–`, whitespace, then a date token. |
| DatePattern.MatchAtShape | app.py:29 | A match is a single date token, or a range of two date tokens around exactly one separator. |
| DatePattern.MatchDate | app.py:29 | A match of the first half, starting at an index, ends at least three characters later within the line. |
| DatePattern.MatchEndDate | app.py:29 | A match of the date that ends a range ends at least three characters after its start, within the line. |
| DatePattern.MatchEndDateToken | app.py:29 | What the date that ends a range matches is a bare `M/D` or `M/D/Y` token. |
| DatePattern.MatchAt | app.py:29 | A match starting at an index ends at least three characters later, within the line. |
| DatePattern.FindAll | app.py:63 | Every match `re.findall` returns has that shape. |
| DatePattern.FindAllSoleToken | app.py:63 | A line whose only digits are one date token, with no word character touching it, yields exactly that token. |
| DatePattern.FindAllSoleRange | app.py:63 | `11/26-11/27` is returned as one match, not as two dates. |
| DatePattern.FindAllOfToken | app.py:63 | A date token on its own is found as the one match. |
| DatePattern.RangeShape | app.py:76-80 | For a range match, the separator test holds. The split gives exactly two ends. Each end stripped is its date token. |
| DatePattern.DateTokenParse | app.py:34-45 | A date token of the pattern never fails for format or integer reasons. It reaches `datetime()` with its digit values and the year rule. |
| Description.RawWords | app.py:68-69 | The words left after removing the token and stripping are non-empty runs of non-whitespace. |
| Description.DropWeekday | app.py:70-73 | The result is a suffix of the words, at most one shorter. It is shorter exactly when the first word names a weekday. |
| Description.WeekdayCaseVariant | app.py:70-72 | A word is a weekday exactly when it spells one of the seven lower-case names with any of its letters capitalised. |
| Description.WeekdayExamples | app.py:70-72 | `Monday`, `MONDAY` and `friday` are weekdays; `Mon` and `Mondays` are not. |
| Description.RemoveSoleToken | app.py:68 | Removing a date token from a line whose other text has no digits leaves the text around it. |
| Description.CleanWeekdayDateLine | app.py:68-74 | A line of a weekday, a date token and digit-free words is described by those words, single-spaced. |
| Description.Clean | app.py:68-74 | The description's only whitespace is single spaces between words. It neither begins nor ends with a space, `-`, `–` or tab. |
| Description.CleanDropsOneWeekday | app.py:70-73 | When the first two words are weekdays, the description begins with the second: only one is dropped. |
| Description.CleanKeepsWords | app.py:68-74 | Suppose the first word is not a weekday and nothing needs trimming. Then the description is the line's remaining words joined by single spaces, and splitting it gives those words back. |
| Extract.HasKeyword | app.py:59-61 | A lower-cased line passes the filter exactly when one of the keywords occurs in it. |
| Extract.KeywordSuffix | app.py:59-60 | A line ending in a keyword, in any case, passes the filter. |
| Extract.ProcessMatches | app.py:67-101 | The match loop yields at most one record per match, each carrying one of the matches and its cleaned description. |
| Extract.ExtractPage | app.py:53-65 | An empty page yields nothing. Every record of a page comes from one of its lines. |
| Extract.ExtractLine | app.py:58-67 | A keyword-less line yields nothing. A line yields at most one record per match, each carrying a match of the pattern and its cleaned description. |
| Extract.ExtractEvents | app.py:51-58 | Every record of a document comes from one of its pages. |
| Extract.MondayLineExample | app.py:58-107 | `Monday 9/2 Start of Classes` yields the one record (`9/2`, `Start of Classes`, 2025-09-02). |
| Extract.ToEntry | app.py:89-92 | The event name is never empty. It is the description when that is non-empty and "Academic Event" otherwise. A single date is the begin date and there is no end. A range begins at its start and ends at its end. |
| Extract.ProcessMatch | app.py:67-107 | One match yields at most one record, carrying the match and its cleaned description. |
| Extract.TokenParses | app.py:34-45 | A date token parses exactly when the date its digits name exists, and then to that date. |
| Extract.ProcessMatchResolves | app.py:76-107 | A pattern match yields a record exactly when its date (for a range, both ends, each on its own) exists. The record holds those dates. |
| Extract.RangeRecord | app.py:76-94 | A range of two valid date tokens becomes one spanning event, with the ends parsed independently. No order or inheritance is involved. |
| Extract.InvertedRangeKept | app.py:76-87 | `5/10-5/5` is appended as a span from 2025-05-10 to 2025-05-05, although its end is before its start. |
| Extract.RangeEndYearNotInherited | app.py:76-87 | In `1/5/2026 - 1/10` the appended end is in 2025, not the start's year 2026. |
| Seqs.ConcatMapAppend | app.py:67-101 | An appending loop handles its elements independently: the output for two runs of inputs is the output of each, in order. |
| Extract.MonthDayToken | app.py:36-38 | A `M/D` of one- or two-digit groups is a bare token of the pattern naming (2025, M, D). |
| Extract.MonthDayYearToken | app.py:39-42 | A `M/D/Y` with a two- to four-digit year is a bare token of the pattern naming year Y, or 2000 + Y when Y < 100. |
| Extract.SkipFailingMatch | app.py:84-85 | A match that fails to parse adds nothing and does not stop the matches after it. |
| Extract.ProcessMatchesExpected | app.py:67-107 | The match loop equals the reference reading: one record per resolving match, in match order. |
| Extract.ExtractLineSpec | app.py:58-67 | A line yields the resolving matches of the pattern when it holds a keyword, and nothing otherwise. |
| Extract.LineRecords | app.py:58-101 | Every record of a line comes from a keyword line and from a match of the pattern in it. Its dates exist, and it carries that match's cleaned description. |
| Extract.ExtractEventsByLines | app.py:52-58 | Skipping empty pages, the document's records are those of its lines in order. |
| Extract.DocumentRecords | app.py:52-101 | Every record of a document comes from a keyword line of a non-empty page and from a resolving match in that line. |
| Extract.NoKeywordNoEvents | app.py:59-61 | A document with no keyword line yields no events, whatever dates it contains. |
| Extract.ProcessMatchesLoop | app.py:67-107 | The inner `for match in matches` loop computes the records of the line's matches. |
| Extract.ExtractLinesLoop | app.py:57-65 | The loop over a page's lines skips keyword-less lines and collects the rest. |
| Extract.ExtractEventsLoop | app.py:51-107 | The nested loops of `extract_events` compute the document's records. |

## Left out

- Flask routes, the secret key, `ics_storage`, session ids and `os.urandom`: web plumbing outside the extraction logic.
- `pdfplumber` page reading: the model takes the pages' text as a `seq<string>`. A page whose text is `None` is treated like an empty page: both are skipped.
- `ics.Calendar` and `Event`, `make_all_day` and `str(calendar)`: a foreign serialisation library.
  - The model stops at `Extract.Entry`: the name, begin date and optional end date each event is given.
  - The `ics` 0.7 `Event.end` setter raises `ValueError` when the end is before the begin. Lines app.py:89-94 are outside the `try`, so such an exception is not caught and ends the whole extraction. The model does not model this abort: its records are what `events_list` holds once the pair is appended at app.py:87.
- Records hold the dates as well as `events_list`'s `(match, description)` pair, so the dates of each appended entry can be stated.
- `\d`, `\b` and `str.lower()` are modelled on ASCII.
  - Python's Unicode digits and letters would also match `\d` and count as word characters, and `lower()` maps non-ASCII capitals.
  - `\s` and `str.split()`/`strip()` use the 29 characters of `str.isspace()`.
- `int()` on non-ASCII digits: Python's `\d` matches them, so they can reach `int()`, but the model's ASCII `\d` excludes them.
- The 4300-digit limit of `int()`: a pattern match has at most four digits per part.
- Logging: the source has none.
- Exceptions: only their effect, skipping the match, is modelled.
- Text.RemoveAll: its contract states that the result only loses characters and is unchanged when the token is absent. Which occurrence is cut first is stated by `Text.RemoveAllFirst`. The function itself follows `replace`'s leftmost non-overlapping scan.
- Description.Clean: its contract states the spacing and edge properties. The exact words are stated only under the conditions of `CleanKeepsWords`, `CleanDropsOneWeekday` and `CleanWeekdayDateLine`.
- Extract.ProcessMatch: its contract states only the match and description of the record. The dates are stated by `ProcessMatchResolves` for every match the pattern can return.
- Dates.MakeDate: CPython's `datetime()` first converts each argument to a C `int` and raises `OverflowError` before its range checks. So `datetime(0, 2**40, 1)` fails on the month, where `MakeDate` reports the year, and `parse_date_string("1/99999999999")` raises `OverflowError` rather than a day error. A pattern token has at most four digits per part and never reaches this, and app.py:84 and app.py:98 catch both errors alike.
